/** The RCCL exchange: every rank's host enqueues work on one device stream, and its device
    executes the stream in order. North/south and east/west are groups of two sends and two
    receives, matched by position only: the messages between an ordered pair of ranks carry
    no tag and are received in the order sent. Hosts and devices interleave in any order.

    As in MpiExchange a send may complete as soon as it is posted; progress is shown for the
    rule in which a group completes only once its messages are received. */
module RcclStream {
  import opened Topology
  import opened Halo

  // ----- the host program

  /** How a rank runs one exchange: stream-ordered or conservative, phase timing on or off. */
  datatype Style = Style(ordered: bool, timed: bool)

  datatype Instr = Enqueue | Sync | Clock

  /** Conservative mode synchronises behind every op, stream-ordered mode behind the last. */
  predicate HasSync(y: Style, op: nat) { !y.ordered || op == 3 }

  /** The host's instructions for op 0 (hoew to hins), 1 (north/south), 2 (hons to hiew) or 3
      (east/west): enqueue, and synchronise if the mode does. Phase timing puts a clock
      reading before and after each of the two, except around the input copy. */
  function ChunkLen(y: Style, op: nat): nat {
    if y.timed && op > 0 then (if HasSync(y, op) then 6 else 3) else if HasSync(y, op) then 2 else 1
  }

  function EnqueueAt(y: Style, op: nat): nat { if y.timed && op > 0 then 1 else 0 }

  function SyncAt(y: Style, op: nat): nat { if y.timed && op > 0 then 4 else 1 }

  function InstrAt(y: Style, op: nat, at: nat): Instr {
    if at == EnqueueAt(y, op) then Enqueue
    else if HasSync(y, op) && at == SyncAt(y, op) then Sync
    else Clock
  }

  /** How many ops the stream can hold there: those enqueued since the last synchronisation. */
  function Unsynced(y: Style, op: nat, at: nat): nat {
    if op >= 4 || (HasSync(y, op) && at > SyncAt(y, op)) then 0
    else (if y.ordered then op else 0) + (if at > EnqueueAt(y, op) then 1 else 0)
  }

  datatype Line = Line(op: nat, instr: Instr)

  function Lines(y: Style, op: nat): seq<Line> {
    seq(ChunkLen(y, op), at requires 0 <= at => Line(op, InstrAt(y, op, at)))
  }

  /** One exchange of the host, line by line. */
  function Program(y: Style): seq<Line> {
    Lines(y, 0) + Lines(y, 1) + Lines(y, 2) + Lines(y, 3)
  }

  /** The four programs in full: stream-ordered mode without and with phase timing, */
  lemma OrderedProgram()
    ensures Program(Style(true, false)) == [Line(0, Enqueue), Line(1, Enqueue), Line(2, Enqueue), Line(3, Enqueue), Line(3, Sync)]
  {
  }

  lemma OrderedTimedProgram()
    ensures Program(Style(true, true))
         == [Line(0, Enqueue),
             Line(1, Clock), Line(1, Enqueue), Line(1, Clock),
             Line(2, Clock), Line(2, Enqueue), Line(2, Clock),
             Line(3, Clock), Line(3, Enqueue), Line(3, Clock), Line(3, Clock), Line(3, Sync), Line(3, Clock)]
  {
  }

  /** and conservative mode without and with it. */
  lemma ConservativeProgram()
    ensures Program(Style(false, false))
         == [Line(0, Enqueue), Line(0, Sync), Line(1, Enqueue), Line(1, Sync), Line(2, Enqueue), Line(2, Sync), Line(3, Enqueue), Line(3, Sync)]
  {
  }

  lemma ConservativeTimedProgram()
    ensures Program(Style(false, true))
         == [Line(0, Enqueue), Line(0, Sync)] + TimedLines(1) + TimedLines(2) + TimedLines(3)
  {
    var y := Style(false, true);
    assert Lines(y, 0) == [Line(0, Enqueue), Line(0, Sync)];
    TimedOp(1);
    TimedOp(2);
    TimedOp(3);
  }

  /** Clock readings before and after an op is put on the stream, and before and after waiting for it. */
  function TimedLines(op: nat): seq<Line> {
    [Line(op, Clock), Line(op, Enqueue), Line(op, Clock), Line(op, Clock), Line(op, Sync), Line(op, Clock)]
  }

  lemma TimedOp(op: nat)
    requires 1 <= op <= 3
    ensures Lines(Style(false, true), op) == TimedLines(op)
  {
  }

  // ----- the system

  /** The host has returned from k exchanges and is at instruction at of op. The stream holds
      the ops not yet complete, oldest first, numbered on over all exchanges. sent and got
      are the halves of the group at the head of the stream that have been issued. */
  datatype Rank = Rank(k: nat, op: nat, at: nat, stream: seq<nat>,
                       sent0: bool, sent1: bool, got0: bool, got1: bool, bufs: Buffers) {

    function Enq(y: Style): nat { 4 * k + op + (if at > EnqueueAt(y, op) then 1 else 0) }

    /** The number of the first op not complete. */
    function Done(y: Style): nat { if stream == [] then Enq(y) else stream[0] }
  }

  type Modes = (nat, nat) -> Style

  datatype System = System(ranks: seq<Rank>, chans: map<(nat, nat), seq<seq<Word>>>) {
    function Queue(a: nat, b: nat): seq<seq<Word>> {
      if (a, b) in chans then chans[(a, b)] else []
    }
  }

  datatype Action = Host | CopyOp | Send(half: bool) | Recv(half: bool) | Complete

  predicate IsGroup(q: nat) { Kind(q) == 1 || Kind(q) == 3 }

  /** The two stages of the group numbered q are q - 1 and q. */
  function HalfStage(q: nat, second: bool): nat {
    if second || q == 0 then q else q - 1
  }

  ghost function To(c: Case, r: nat, q: nat, second: bool): nat
    requires r < c.l.size
  {
    Dest(c.l, Kind(HalfStage(q, second)), r)
  }

  ghost function From(c: Case, r: nat, q: nat, second: bool): nat
    requires r < c.l.size
  {
    Src(c.l, Kind(HalfStage(q, second)), r)
  }

  ghost predicate Enabled(c: Case, modes: Modes, goal: nat, s: System, r: nat, act: Action)
    requires |s.ranks| == c.l.size
  {
    r < c.l.size &&
    var p := s.ranks[r];
    match act
    case Host => p.k < goal && (AtSync(modes(r, p.k), p) ==> p.stream == [])
    case CopyOp => p.stream != [] && !IsGroup(p.stream[0])
    case Send(second) =>
      && p.stream != [] && IsGroup(p.stream[0])
      && (if second
          then !p.sent1 && (To(c, r, p.stream[0], false) == To(c, r, p.stream[0], true) ==> p.sent0)
          else !p.sent0)
    case Recv(second) =>
      && p.stream != [] && IsGroup(p.stream[0])
      && (if second
          then !p.got1 && (From(c, r, p.stream[0], false) == From(c, r, p.stream[0], true) ==> p.got0)
          else !p.got0)
      && s.Queue(From(c, r, p.stream[0], second), r) != []
    case Complete =>
      p.stream != [] && IsGroup(p.stream[0]) && p.sent0 && p.sent1 && p.got0 && p.got1
  }

  predicate AtSync(y: Style, p: Rank) {
    p.op < 4 && p.at < ChunkLen(y, p.op) && InstrAt(y, p.op, p.at).Sync?
  }

  /** Actions that need no buffering of messages by the system. */
  ghost predicate Unbuffered(c: Case, modes: Modes, goal: nat, s: System, r: nat, act: Action)
    requires |s.ranks| == c.l.size
  {
    Enabled(c, modes, goal, s, r, act) &&
    (act == Complete ==> var q := s.ranks[r].stream[0];
                         s.Queue(r, To(c, r, q, false)) == [] && s.Queue(r, To(c, r, q, true)) == [])
  }

  /** With no halo words the groups are never enqueued. */
  function Push(n: nat, stream: seq<nat>, e: nat): (t: seq<nat>) {
    if n > 0 || !IsGroup(e) then stream + [e] else stream
  }

  /** The host executes its next instruction, moves on to the next op, or returns. */
  function HostStep(n: nat, y: Style, p: Rank): Rank {
    if p.op >= 4 then p.(k := p.k + 1, op := 0, at := 0)
    else if p.at >= ChunkLen(y, p.op) then p.(op := p.op + 1, at := 0)
    else if InstrAt(y, p.op, p.at).Enqueue? then p.(at := p.at + 1, stream := Push(n, p.stream, 4 * p.k + p.op))
    else p.(at := p.at + 1)
  }

  /** Where in its program a host is. */
  function LineIndex(y: Style, op: nat, at: nat): nat {
    at + (if op > 0 then ChunkLen(y, 0) else 0) + (if op > 1 then ChunkLen(y, 1) else 0) + (if op > 2 then ChunkLen(y, 2) else 0)
  }

  lemma LineAt(y: Style, op: nat, at: nat)
    requires op < 4 && at < ChunkLen(y, op)
    ensures var i := LineIndex(y, op, at); i < |Program(y)| && Program(y)[i] == Line(op, InstrAt(y, op, at))
  {
    hide ChunkLen, InstrAt;
  }

  /** A host executes the lines of its program one by one, waits at Sync for an empty stream and puts
      an op on it at Enqueue. */
  lemma HostLine(n: nat, y: Style, p: Rank)
    requires p.op < 4 && p.at < ChunkLen(y, p.op)
    ensures var i, p' := LineIndex(y, p.op, p.at), HostStep(n, y, p);
            && i < |Program(y)| && Program(y)[i].op == p.op && p'.k == p.k && LineIndex(y, p'.op, p'.at) == i + 1
            && (AtSync(y, p) <==> Program(y)[i].instr.Sync?)
            && p'.stream == if Program(y)[i].instr.Enqueue? && (n > 0 || p.op == 0 || p.op == 2) then p.stream + [4 * p.k + p.op] else p.stream
  {
    LineAt(y, p.op, p.at);
    hide Program, ChunkLen, InstrAt, Kind;
    KindOf(p.k, p.op);
  }

  ghost function Do(c: Case, modes: Modes, s: System, r: nat, act: Action): (s': System)
    requires |s.ranks| == c.l.size && r < c.l.size
    requires act.Host? || s.ranks[r].stream != []
    requires act.Recv? ==> s.Queue(From(c, r, s.ranks[r].stream[0], act.half), r) != []
    ensures |s'.ranks| == c.l.size
  {
    var p := s.ranks[r];
    match act
    case Host =>
      s.(ranks := s.ranks[r := HostStep(c.n, modes(r, p.k), p)])
    case CopyOp =>
      s.(ranks := s.ranks[r := Popping(p, Begin(p.bufs, Kind(p.stream[0])))])
    case Send(second) =>
      var to := To(c, r, p.stream[0], second);
      var msg := Outgoing(p.bufs, c.n, Kind(HalfStage(p.stream[0], second)));
      System(s.ranks[r := Sending(p, second)],
             s.chans[(r, to) := s.Queue(r, to) + [msg]])
    case Recv(second) =>
      var from := From(c, r, p.stream[0], second);
      System(s.ranks[r := Receiving(c.n, p, second, s.Queue(from, r)[0])],
             s.chans[(from, r) := s.Queue(from, r)[1..]])
    case Complete =>
      s.(ranks := s.ranks[r := Popping(p, p.bufs)])
  }

  ghost predicate Step(c: Case, modes: Modes, goal: nat, s: System, s': System) {
    |s.ranks| == c.l.size &&
    exists r: nat, act :: Enabled(c, modes, goal, s, r, act) && s' == Do(c, modes, s, r, act)
  }

  /** No rank can step, buffered or not. */
  ghost predicate Stuck(c: Case, modes: Modes, goal: nat, s: System) {
    |s.ranks| == c.l.size ==> forall r: nat, act :: !Enabled(c, modes, goal, s, r, act)
  }

  function Start(c: Case): System {
    System(seq(c.l.size, r requires 0 <= r < c.l.size =>
                 Rank(0, 0, 0, [], false, false, false, false, c.init[r])), map[])
  }

  ghost predicate IsRun(c: Case, modes: Modes, goal: nat, run: seq<System>) {
    && |run| > 0 && run[0] == Start(c)
    && forall i | 0 <= i < |run| - 1 :: Step(c, modes, goal, run[i], run[i + 1])
  }

  // ----- the invariant of one rank

  /** Rank r's buffers inside the group numbered d, with some halves received. */
  ghost function Partial(c: Case, r: nat, d: nat, got0: bool, got1: bool): Buffers
    requires r < c.l.size && d > 0
  {
    var b := Begin(After(c, d - 1)[r], Kind(d - 1));
    var b0 := if got0 then Deliver(b, c.n, Kind(d - 1), Message(c, d - 1, From(c, r, d, false))) else b;
    if got1 then Deliver(b0, c.n, Kind(d), Message(c, d, From(c, r, d, true))) else b0
  }

  /** What rank r's buffers hold when ops up to d are complete, whatever the schedule and the
      synchronisation mode. */
  ghost function Expected(c: Case, r: nat, d: nat, got0: bool, got1: bool): Buffers
    requires r < c.l.size
  {
    if IsGroup(d) && d > 0 then Partial(c, r, d, got0, got1) else After(c, d)[r]
  }

  /** The stream holds the most recently enqueued ops; without halo words, only copies. */
  predicate StreamOk(n: nat, stream: seq<nat>, enq: nat) {
    if n > 0 then |stream| <= enq && forall i | 0 <= i < |stream| :: Follows(stream, enq, i)
    else forall i | 0 <= i < |stream| :: CopyAt(stream, i)
  }

  predicate Follows(stream: seq<nat>, enq: nat, i: nat)
    requires i < |stream| <= enq
  {
    stream[i] == enq - |stream| + i
  }

  predicate CopyAt(stream: seq<nat>, i: nat)
    requires i < |stream|
  {
    !IsGroup(stream[i])
  }

  /** Halves between the same two ranks are issued in the order of the group. */
  ghost predicate InOrder(c: Case, r: nat, d: nat, p: Rank)
    requires r < c.l.size
  {
    && (p.sent1 && To(c, r, d, false) == To(c, r, d, true) ==> p.sent0)
    && (p.got1 && From(c, r, d, false) == From(c, r, d, true) ==> p.got0)
  }

  /** Where a host can be, and what its stream can hold there. */
  predicate HostOk(n: nat, goal: nat, y: Style, p: Rank) {
    && p.k <= goal && p.op <= 4 && (p.k == goal ==> p.op == p.at == 0)
    && p.at <= (if p.op < 4 then ChunkLen(y, p.op) else 0)
    && |p.stream| <= Unsynced(y, p.op, p.at)
    && StreamOk(n, p.stream, p.Enq(y))
  }

  /** What the device has done when ops up to d are complete. */
  ghost predicate DeviceOk(c: Case, r: nat, d: nat, p: Rank)
    requires r < c.l.size
  {
    && (p.sent0 || p.sent1 || p.got0 || p.got1 ==> p.stream != [] && IsGroup(p.stream[0]))
    && InOrder(c, r, d, p)
    && p.bufs.Sized(c.n)
    && (c.n > 0 ==> p.bufs == Expected(c, r, d, p.got0, p.got1))
  }

  ghost predicate RankOk(c: Case, modes: Modes, goal: nat, r: nat, p: Rank)
    requires r < c.l.size
  {
    HostOk(c.n, goal, modes(r, p.k), p) && DeviceOk(c, r, p.Done(modes(r, p.k)), p)
  }

  lemma Pushed(n: nat, stream: seq<nat>, enq: nat)
    requires StreamOk(n, stream, enq) && (n > 0 || !IsGroup(enq))
    ensures StreamOk(n, stream + [enq], enq + 1)
  {
    var t, e := stream + [enq], enq + 1;
    if n > 0 {
      forall i | 0 <= i < |t|
        ensures Follows(t, e, i)
      {
        assert i < |stream| ==> Follows(stream, enq, i);
      }
    } else {
      forall i | 0 <= i < |t|
        ensures CopyAt(t, i)
      {
        assert i < |stream| ==> CopyAt(stream, i);
      }
    }
  }

  lemma ExecutedEnqueue(n: nat, goal: nat, y: Style, p: Rank)
    requires HostOk(n, goal, y, p) && p.k < goal && p.op < 4 && p.at == EnqueueAt(y, p.op) < ChunkLen(y, p.op)
    ensures var p' := HostStep(n, y, p); HostOk(n, goal, y, p') && p'.k == p.k && (n > 0 ==> p'.Done(y) == p.Done(y))
  {
    var p' := HostStep(n, y, p);
    var e := p.Enq(y);
    assert e == 4 * p.k + p.op && p'.Enq(y) == e + 1;
    assert p'.stream == Push(n, p.stream, e);
    PushOk(n, p.stream, e);
  }

  lemma PushOk(n: nat, stream: seq<nat>, e: nat)
    requires StreamOk(n, stream, e)
    ensures StreamOk(n, Push(n, stream, e), e + 1)
    ensures n > 0 ==> Push(n, stream, e) != [] && Push(n, stream, e)[0] == if stream == [] then e else stream[0]
    ensures stream <= Push(n, stream, e)
  {
    if n > 0 || !IsGroup(e) {
      Pushed(n, stream, e);
    }
  }

  lemma ExecutedOther(n: nat, goal: nat, y: Style, p: Rank)
    requires HostOk(n, goal, y, p) && p.k < goal && p.op < 4 && p.at < ChunkLen(y, p.op) && p.at != EnqueueAt(y, p.op)
    requires AtSync(y, p) ==> p.stream == []
    ensures var p' := HostStep(n, y, p); HostOk(n, goal, y, p') && p'.k == p.k && (n > 0 ==> p'.Done(y) == p.Done(y))
  {
    var p' := HostStep(n, y, p);
    assert p' == p.(at := p.at + 1) && p'.Enq(y) == p.Enq(y);
  }

  lemma MovedOn(n: nat, goal: nat, y: Style, p: Rank)
    requires HostOk(n, goal, y, p) && p.k < goal && p.op < 4 && p.at >= ChunkLen(y, p.op)
    ensures var p' := HostStep(n, y, p); HostOk(n, goal, y, p') && p'.k == p.k && (n > 0 ==> p'.Done(y) == p.Done(y))
  {
  }

  /** When a host returns from an exchange its stream is empty. */
  lemma Returned(n: nat, goal: nat, y: Style, y': Style, p: Rank)
    requires HostOk(n, goal, y, p) && p.k < goal && p.op == 4
    ensures var p' := HostStep(n, y, p);
            HostOk(n, goal, y', p') && p'.k == p.k + 1 && (n > 0 ==> p'.Done(y') == p.Done(y))
    ensures p.stream == []
  {
  }

  /** The device does not notice what its host does. */
  lemma DeviceSame(c: Case, r: nat, d: nat, p: Rank, d': nat, p': Rank)
    requires r < c.l.size && DeviceOk(c, r, d, p)
    requires p' == p.(k := p'.k, op := p'.op, at := p'.at, stream := p'.stream)
    requires p.stream <= p'.stream
    requires if c.n > 0 then d' == d else StreamOk(0, p.stream, 0)
    ensures DeviceOk(c, r, d', p')
  {
    if c.n == 0 && p.stream != [] {
      assert CopyAt(p.stream, 0);
    }
  }

  /** A host step keeps the rank's invariant and, with words to exchange, its progress. */
  lemma HostKeeps(c: Case, modes: Modes, goal: nat, r: nat, p: Rank)
    requires r < c.l.size && RankOk(c, modes, goal, r, p)
    requires p.k < goal && (AtSync(modes(r, p.k), p) ==> p.stream == [])
    ensures var p' := HostStep(c.n, modes(r, p.k), p);
            && RankOk(c, modes, goal, r, p')
            && (c.n > 0 ==> p'.Done(modes(r, p'.k)) == p.Done(modes(r, p.k)))
            && p'.sent0 == p.sent0 && p'.sent1 == p.sent1 && p'.got0 == p.got0 && p'.got1 == p.got1
  {
    var y := modes(r, p.k);
    var p' := HostStep(c.n, y, p);
    var y' := modes(r, p'.k);
    HostMoves(c.n, goal, y, y', p);
    DeviceSame(c, r, p.Done(y), p, p'.Done(y'), p');
  }

  lemma HostMoves(n: nat, goal: nat, y: Style, y': Style, p: Rank)
    requires HostOk(n, goal, y, p) && p.k < goal && (AtSync(y, p) ==> p.stream == [])
    requires HostStep(n, y, p).k == p.k ==> y' == y
    ensures var p' := HostStep(n, y, p);
            && HostOk(n, goal, y', p') && (n > 0 ==> p'.Done(y') == p.Done(y))
            && p' == p.(k := p'.k, op := p'.op, at := p'.at, stream := p'.stream) && p.stream <= p'.stream
  {
    if p.op == 4 {
      Returned(n, goal, y, y', p);
    } else if p.at < ChunkLen(y, p.op) {
      if p.at == EnqueueAt(y, p.op) {
        ExecutedEnqueue(n, goal, y, p);
      } else {
        ExecutedOther(n, goal, y, p);
      }
    } else {
      MovedOn(n, goal, y, p);
    }
  }

  /** Completing the op at the head of the stream uncovers the next one. */
  lemma Popped(n: nat, stream: seq<nat>, enq: nat)
    requires StreamOk(n, stream, enq) && stream != []
    ensures StreamOk(n, stream[1..], enq)
    ensures n > 0 ==> (if stream[1..] == [] then enq else stream[1..][0]) == stream[0] + 1
    ensures n == 0 ==> !IsGroup(stream[0])
  {
    var t := stream[1..];
    if n > 0 {
      assert Follows(stream, enq, 0);
      assert |stream| > 1 ==> Follows(stream, enq, 1);
      forall i | 0 <= i < |t|
        ensures Follows(t, enq, i)
      {
        assert Follows(stream, enq, i + 1);
      }
    } else {
      assert CopyAt(stream, 0);
      forall i | 0 <= i < |t|
        ensures CopyAt(t, i)
      {
        assert CopyAt(stream, i + 1);
      }
    }
  }

  // ----- what a group does to the buffers of one rank

  lemma GroupStages(d: nat)
    requires IsGroup(d)
    ensures d > 0 && Kind(d) == Kind(d - 1) + 1 && (Kind(d - 1) == 0 || Kind(d - 1) == 2)
    ensures !IsGroup(d + 1)
  {
  }

  lemma AfterCopy(d: nat)
    requires !IsGroup(d)
    ensures IsGroup(d + 1)
  {
  }

  /** The two halves of a group write different segments. */
  lemma DeliverTwice(b: Buffers, n: nat, t: nat, msg: seq<Word>, msg': seq<Word>)
    requires b.Sized(n) && (t == 0 || t == 2) && |msg| == SegLen(n, t) && |msg'| == SegLen(n, t + 1)
    ensures Deliver(Deliver(b, n, t + 1, msg'), n, t, msg) == Deliver(Deliver(b, n, t, msg), n, t + 1, msg')
  {
    hide Splice;
    SpliceTwice(if t == 0 then b.hons else b.hoew, n, msg, msg');
  }

  lemma SpliceTwice(x: seq<Word>, n: nat, msg: seq<Word>, msg': seq<Word>)
    requires |x| == BufferWords(n)
    requires |msg| == n && |msg'| == 2 * n
    ensures Splice(Splice(x, n, msg'), 0, msg) == Splice(Splice(x, 0, msg), n, msg')
  {
  }

  lemma BeginSized(c: Case, r: nat, j: nat)
    requires r < c.l.size
    ensures Begin(After(c, j)[r], Kind(j)).Sized(c.n)
  {
    assert After(c, j)[r].Sized(c.n);
  }

  /** Receiving either half, in either order, leads to the expected buffers. */
  lemma PartialRecv(c: Case, r: nat, d: nat, got0: bool, got1: bool)
    requires r < c.l.size && IsGroup(d) && d > 0
    ensures Deliver(Partial(c, r, d, false, got1), c.n, Kind(d - 1), Message(c, d - 1, From(c, r, d, false)))
         == Partial(c, r, d, true, got1)
    ensures Deliver(Partial(c, r, d, got0, false), c.n, Kind(d), Message(c, d, From(c, r, d, true)))
         == Partial(c, r, d, got0, true)
  {
    GroupStages(d);
    BeginSized(c, r, d - 1);
    DeliverTwice(Begin(After(c, d - 1)[r], Kind(d - 1)), c.n, Kind(d - 1),
                 Message(c, d - 1, From(c, r, d, false)), Message(c, d, From(c, r, d, true)));
  }

  lemma PartialFull(c: Case, r: nat, d: nat)
    requires r < c.l.size && IsGroup(d) && d > 0
    ensures Partial(c, r, d, true, true) == After(c, d + 1)[r]
  {
    GroupStages(d);
    AfterStep(c, d - 1, r);
    AfterStep(c, d, r);
  }

  /** Receiving does not touch the buffers sends read. */
  lemma ReceiveApart(b: Buffers, n: nat, t: nat, msg: seq<Word>, t': nat)
    ensures Outgoing(Deliver(b, n, t, msg), n, t') == Outgoing(b, n, t')
  {
    hide Splice, Slice, SegLo, SegLen;
  }

  /** What a group sends does not depend on what it has received so far. */
  lemma PartialSend(c: Case, r: nat, d: nat, got0: bool, got1: bool)
    requires r < c.l.size && IsGroup(d) && d > 0
    ensures Outgoing(Partial(c, r, d, got0, got1), c.n, Kind(d - 1)) == Message(c, d - 1, r)
    ensures Outgoing(Partial(c, r, d, got0, got1), c.n, Kind(d)) == Message(c, d, r)
  {
    hide Outgoing, Deliver, After, Kind;
    GroupStages(d);
    AfterStep(c, d - 1, r);
    var b := Begin(After(c, d - 1)[r], Kind(d - 1));
    var m0, m1 := Message(c, d - 1, From(c, r, d, false)), Message(c, d, From(c, r, d, true));
    var b0 := if got0 then Deliver(b, c.n, Kind(d - 1), m0) else b;
    ReceiveApart(b, c.n, Kind(d - 1), m0, Kind(d - 1));
    ReceiveApart(b, c.n, Kind(d - 1), m0, Kind(d));
    ReceiveApart(b0, c.n, Kind(d), m1, Kind(d - 1));
    ReceiveApart(b0, c.n, Kind(d), m1, Kind(d));
  }

  // ----- device steps on one rank

  function Popping(p: Rank, bufs: Buffers): Rank
    requires p.stream != []
  {
    p.(stream := p.stream[1..], sent0 := false, sent1 := false, got0 := false, got1 := false, bufs := bufs)
  }

  lemma PopKeeps(n: nat, goal: nat, y: Style, p: Rank, bufs: Buffers)
    requires HostOk(n, goal, y, p) && p.stream != []
    ensures HostOk(n, goal, y, Popping(p, bufs)) && (n > 0 ==> Popping(p, bufs).Done(y) == p.Done(y) + 1)
    ensures n == 0 ==> !IsGroup(p.stream[0])
  {
    Popped(n, p.stream, p.Enq(y));
  }

  lemma CopyDevice(c: Case, r: nat, d: nat, d': nat, p: Rank)
    requires r < c.l.size && DeviceOk(c, r, d, p) && p.stream != [] && p.stream[0] == d && !IsGroup(d)
    requires c.n > 0 ==> d' == d + 1
    ensures DeviceOk(c, r, d', Popping(p, Begin(p.bufs, Kind(d))))
  {
    var b := Begin(p.bufs, Kind(d));
    BeginKeepsSize(p.bufs, Kind(d), c.n);
    if c.n > 0 {
      PartialNone(c, r, d);
      assert b == Expected(c, r, d', false, false);
    }
  }

  lemma BeginKeepsSize(b: Buffers, t: nat, n: nat)
    requires b.Sized(n)
    ensures Begin(b, t).Sized(n)
  {
  }

  lemma PartialNone(c: Case, r: nat, d: nat)
    requires r < c.l.size && !IsGroup(d)
    ensures Expected(c, r, d, false, false) == After(c, d)[r]
    ensures Expected(c, r, d + 1, false, false) == Begin(After(c, d)[r], Kind(d))
  {
    AfterCopy(d);
  }

  lemma CopyKeeps(c: Case, modes: Modes, goal: nat, r: nat, p: Rank)
    requires r < c.l.size && RankOk(c, modes, goal, r, p) && p.stream != [] && !IsGroup(p.stream[0])
    ensures RankOk(c, modes, goal, r, Popping(p, Begin(p.bufs, Kind(p.stream[0]))))
  {
    var b := Begin(p.bufs, Kind(p.stream[0]));
    PopKeeps(c.n, goal, modes(r, p.k), p, b);
    CopyDevice(c, r, p.stream[0], Popping(p, b).Done(modes(r, p.k)), p);
  }

  lemma CompleteKeeps(c: Case, modes: Modes, goal: nat, r: nat, p: Rank)
    requires r < c.l.size && RankOk(c, modes, goal, r, p) && p.stream != [] && IsGroup(p.stream[0])
    requires p.got0 && p.got1
    ensures RankOk(c, modes, goal, r, Popping(p, p.bufs)) && c.n > 0
  {
    var d := p.stream[0];
    GroupStages(d);
    PopKeeps(c.n, goal, modes(r, p.k), p, p.bufs);
    PartialFull(c, r, d);
  }

  function Sending(p: Rank, second: bool): Rank {
    if second then p.(sent1 := true) else p.(sent0 := true)
  }

  /** Inside a group only flags and buffers change. */
  lemma InGroup(c: Case, modes: Modes, goal: nat, r: nat, p: Rank, p': Rank)
    requires r < c.l.size && RankOk(c, modes, goal, r, p) && p.stream != [] && IsGroup(p.stream[0])
    requires p' == p.(sent0 := p'.sent0, sent1 := p'.sent1, got0 := p'.got0, got1 := p'.got1, bufs := p'.bufs)
    requires InOrder(c, r, p.stream[0], p') && p'.bufs.Sized(c.n)
    requires p'.bufs == Expected(c, r, p.stream[0], p'.got0, p'.got1)
    ensures RankOk(c, modes, goal, r, p')
  {
  }

  lemma SendKeeps(c: Case, modes: Modes, goal: nat, r: nat, p: Rank, second: bool)
    requires r < c.l.size && RankOk(c, modes, goal, r, p) && p.stream != [] && IsGroup(p.stream[0])
    requires second && To(c, r, p.stream[0], false) == To(c, r, p.stream[0], true) ==> p.sent0
    ensures RankOk(c, modes, goal, r, Sending(p, second)) && c.n > 0
    ensures var j := HalfStage(p.stream[0], second); Outgoing(p.bufs, c.n, Kind(j)) == Message(c, j, r)
  {
    var d := p.stream[0];
    PopKeeps(c.n, goal, modes(r, p.k), p, p.bufs);
    GroupStages(d);
    PartialSend(c, r, d, p.got0, p.got1);
    InGroup(c, modes, goal, r, p, Sending(p, second));
  }

  function Receiving(n: nat, p: Rank, second: bool, msg: seq<Word>): Rank
    requires p.stream != []
  {
    var b := Deliver(p.bufs, n, Kind(HalfStage(p.stream[0], second)), msg);
    if second then p.(got1 := true, bufs := b) else p.(got0 := true, bufs := b)
  }

  lemma RecvKeeps(c: Case, modes: Modes, goal: nat, r: nat, p: Rank, second: bool)
    requires r < c.l.size && RankOk(c, modes, goal, r, p) && p.stream != [] && IsGroup(p.stream[0])
    requires if second then !p.got1 && (From(c, r, p.stream[0], false) == From(c, r, p.stream[0], true) ==> p.got0)
             else !p.got0
    ensures var d := p.stream[0];
            RankOk(c, modes, goal, r, Receiving(c.n, p, second, Message(c, HalfStage(d, second), From(c, r, d, second))))
    ensures c.n > 0
  {
    var d := p.stream[0];
    PopKeeps(c.n, goal, modes(r, p.k), p, p.bufs);
    GroupStages(d);
    PartialRecv(c, r, d, p.got0, p.got1);
    var msg := Message(c, HalfStage(d, second), From(c, r, d, second));
    DeliverSized(p.bufs, c.n, Kind(HalfStage(d, second)), msg);
    InGroup(c, modes, goal, r, p, Receiving(c.n, p, second, msg));
  }

  lemma DeliverSized(b: Buffers, n: nat, t: nat, msg: seq<Word>)
    requires b.Sized(n)
    ensures Deliver(b, n, t, msg).Sized(n)
  {
  }
}
