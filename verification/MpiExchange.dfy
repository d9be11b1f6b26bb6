/** The exchange of the MPI backend as a distributed protocol. Every rank runs a number of
    exchanges of four tagged send-receives; ranks take micro-steps in any order.

    Message passing follows MPI 3.1: messages of one (source, destination, tag) are received
    in the order sent (section 3.5), and the two halves of a send-receive proceed
    independently (section 3.10). A send may complete as soon as it is posted; progress is
    shown for the stricter rule in which it completes only once its message is received. */
module MpiExchange {
  import opened Topology
  import opened Halo

  /** pc counts completed stages over all exchanges. */
  datatype Proc = Proc(pc: nat, begun: bool, posted: bool, received: bool, bufs: Buffers) {
    function Sends(): nat { if posted then pc + 1 else pc }

    function Receives(): nat { if received then pc + 1 else pc }
  }

  datatype Channel = Channel(src: nat, dst: nat, tag: nat)

  datatype System = System(procs: seq<Proc>, chans: map<Channel, seq<seq<Word>>>) {
    function Queue(ch: Channel): seq<seq<Word>> {
      if ch in chans then chans[ch] else []
    }
  }

  datatype Action = EnterStage | PostSend | Receive | Leave

  /** Stage t of every exchange uses tag 9901 + t. */
  function Tag(t: nat): nat { 9901 + t }

  ghost function Inbound(c: Case, r: nat, j: nat): Channel
    requires r < c.l.size
  {
    Channel(Src(c.l, Kind(j), r), r, Tag(Kind(j)))
  }

  ghost function Outbound(c: Case, r: nat, j: nat): Channel
    requires r < c.l.size
  {
    Channel(r, Dest(c.l, Kind(j), r), Tag(Kind(j)))
  }

  /** Rank r may take the action; stages is four times the number of exchanges to run. */
  ghost predicate Enabled(c: Case, stages: nat, s: System, r: nat, act: Action)
    requires |s.procs| == c.l.size
  {
    r < c.l.size && s.procs[r].pc < stages &&
    var p := s.procs[r];
    match act
    case EnterStage => !p.begun
    case PostSend => p.begun && !p.posted
    case Receive => p.begun && !p.received && s.Queue(Inbound(c, r, p.pc)) != []
    case Leave => p.posted && p.received
  }

  /** Actions that need no buffering of messages by the system. */
  ghost predicate Unbuffered(c: Case, stages: nat, s: System, r: nat, act: Action)
    requires |s.procs| == c.l.size
  {
    Enabled(c, stages, s, r, act) && (act == Leave ==> s.Queue(Outbound(c, r, s.procs[r].pc)) == [])
  }

  ghost function Do(c: Case, s: System, r: nat, act: Action): (s': System)
    requires |s.procs| == c.l.size && r < c.l.size
    requires act == Receive ==> s.Queue(Inbound(c, r, s.procs[r].pc)) != []
    ensures |s'.procs| == c.l.size
  {
    var p := s.procs[r];
    match act
    case EnterStage =>
      s.(procs := s.procs[r := p.(begun := true, bufs := Begin(p.bufs, Kind(p.pc)))])
    case PostSend =>
      var ch := Outbound(c, r, p.pc);
      System(s.procs[r := p.(posted := true)],
             s.chans[ch := s.Queue(ch) + [Outgoing(p.bufs, c.n, Kind(p.pc))]])
    case Receive =>
      var ch := Inbound(c, r, p.pc);
      var b := Deliver(p.bufs, c.n, Kind(p.pc), s.Queue(ch)[0]);
      System(s.procs[r := p.(received := true, bufs := b)], s.chans[ch := s.Queue(ch)[1..]])
    case Leave =>
      s.(procs := s.procs[r := Proc(p.pc + 1, false, false, false, p.bufs)])
  }

  ghost predicate Step(c: Case, stages: nat, s: System, s': System) {
    |s.procs| == c.l.size && exists r: nat, act :: Enabled(c, stages, s, r, act) && s' == Do(c, s, r, act)
  }

  /** No rank can step, buffered or not. */
  ghost predicate Stuck(c: Case, stages: nat, s: System) {
    |s.procs| == c.l.size ==> forall r: nat, act :: !Enabled(c, stages, s, r, act)
  }

  function Start(c: Case): System {
    System(seq(c.l.size, r requires 0 <= r < c.l.size => Proc(0, false, false, false, c.init[r])), map[])
  }

  ghost predicate IsRun(c: Case, stages: nat, run: seq<System>) {
    && |run| > 0 && run[0] == Start(c)
    && forall i | 0 <= i < |run| - 1 :: Step(c, stages, run[i], run[i + 1])
  }

  // ----- the invariant

  /** What rank r's buffers hold at a given point of its own program, whatever the schedule. */
  ghost function Expected(c: Case, p: Proc, r: nat): Buffers
    requires r < c.l.size
  {
    if p.received then After(c, p.pc + 1)[r]
    else if p.begun then Begin(After(c, p.pc)[r], Kind(p.pc))
    else After(c, p.pc)[r]
  }

  ghost predicate ProcOk(c: Case, stages: nat, s: System, r: nat)
    requires r < |s.procs| == c.l.size
  {
    var p := s.procs[r];
    && p.pc <= stages
    && (p.posted || p.received ==> p.begun)
    && (p.begun ==> p.pc < stages)
    && p.bufs == Expected(c, p, r)
  }

  /** Rank b has not received the message of stage j before it was sent. */
  ghost predicate SentFirst(c: Case, s: System, b: nat, j: nat)
    requires b < |s.procs| == c.l.size
  {
    j < s.procs[b].Receives() ==> j < s.procs[Src(c.l, Kind(j), b)].Sends()
  }

  ghost predicate Causal(c: Case, s: System)
    requires |s.procs| == c.l.size
  {
    forall b: nat, j: nat | b < c.l.size :: SentFirst(c, s, b, j)
  }

  /** The first stage of kind t not before stage lo. */
  function FirstFrom(lo: nat, t: nat): (j: nat)
    requires t < 4
    ensures lo <= j < lo + 4 && Kind(j) == t
  {
    if Kind(lo) == t then lo
    else if Kind(lo + 1) == t then lo + 1
    else if Kind(lo + 2) == t then lo + 2
    else lo + 3
  }

  lemma FirstFromIs(lo: nat, t: nat, j: nat)
    requires t < 4 && lo <= j < lo + 4 && Kind(j) == t
    ensures FirstFrom(lo, t) == j
  {
    assert j == lo || j == lo + 1 || j == lo + 2 || j == lo + 3;
  }

  lemma FirstFromSelf(j: nat)
    ensures FirstFrom(j, Kind(j)) == j && FirstFrom(j + 1, Kind(j)) == j + 4
  {
  }

  /** Of the messages of kind t from rank a: the first one at or after stage recvs, if a has
      got past it. */
  ghost function Flight(c: Case, t: nat, a: nat, sends: nat, recvs: nat): seq<seq<Word>>
    requires a < c.l.size && t < 4
  {
    var j := FirstFrom(recvs, t);
    if j < sends then [Message(c, j, a)] else []
  }

  ghost predicate Routed(c: Case, ch: Channel) {
    ch.src < c.l.size && Tag(0) <= ch.tag < Tag(4) && ch.dst == Dest(c.l, ch.tag - Tag(0), ch.src)
  }

  /** A channel holds the one message its receiver is behind by, if any. */
  ghost function InFlight(c: Case, s: System, ch: Channel): seq<seq<Word>>
    requires |s.procs| == c.l.size
  {
    if Routed(c, ch)
    then Flight(c, ch.tag - Tag(0), ch.src, s.procs[ch.src].Sends(), s.procs[ch.dst].Receives())
    else []
  }

  ghost predicate ChannelOk(c: Case, s: System, ch: Channel)
    requires |s.procs| == c.l.size
  {
    s.Queue(ch) == InFlight(c, s, ch)
  }

  ghost predicate Inv(c: Case, stages: nat, s: System) {
    && |s.procs| == c.l.size
    && (forall r: nat | r < c.l.size :: ProcOk(c, stages, s, r))
    && Causal(c, s)
    && (forall ch :: ChannelOk(c, s, ch))
  }

  /** A rank can only be ahead of a neighbour by what it got from it in its last four stages. */
  lemma Behind(c: Case, s: System, b: nat, j: nat)
    requires |s.procs| == c.l.size && Causal(c, s)
    requires b < c.l.size && j < s.procs[b].pc
    ensures s.procs[Src(c.l, Kind(j), b)].pc >= j
  {
    assert SentFirst(c, s, b, j);
  }

  /** Since a hears from b in the stage opposite to the one in which it sends to b, it never
      has two messages of one kind on their way. */
  lemma AtMostOne(c: Case, s: System, t: nat, a: nat)
    requires |s.procs| == c.l.size && Causal(c, s) && t < 4 && a < c.l.size
    ensures s.procs[a].Sends() <= FirstFrom(s.procs[Dest(c.l, t, a)].Receives(), t) + 4
  {
    var j := FirstFrom(s.procs[Dest(c.l, t, a)].Receives(), t);
    if j + 4 < s.procs[a].Sends() {
      HearsBack(c.l, t, a);
      Behind(c, s, a, FirstFrom(j + 1, Opposite(t)));
    }
  }

  /** When a reaches a stage, b has received its previous message of that kind and not more. */
  lemma NextToSend(c: Case, s: System, a: nat)
    requires |s.procs| == c.l.size && Causal(c, s) && a < c.l.size && !s.procs[a].posted
    ensures var j := s.procs[a].pc; FirstFrom(s.procs[Dest(c.l, Kind(j), a)].Receives(), Kind(j)) == j
  {
    var j := s.procs[a].pc;
    var t := Kind(j);
    var q := s.procs[Dest(c.l, t, a)];
    SrcDest(c.l, t, a, Dest(c.l, t, a));
    assert SentFirst(c, s, Dest(c.l, t, a), j);
    if j >= 4 {
      HearsBack(c.l, t, a);
      Behind(c, s, a, FirstFrom(j - 3, Opposite(t)));
    }
    FirstFromIs(q.Receives(), t, j);
  }

  // ----- each action keeps the invariant

  /** A counter stands still or moves over one stage that is not of kind t. */
  ghost predicate Irrelevant(before: nat, after: nat, t: nat) {
    after == before || (after == before + 1 && Kind(before) != t)
  }

  lemma SameFlight(c: Case, t: nat, a: nat, sends: nat, sends': nat, recvs: nat, recvs': nat)
    requires a < c.l.size && t < 4 && Irrelevant(sends, sends', t) && Irrelevant(recvs, recvs', t)
    ensures Flight(c, t, a, sends, recvs) == Flight(c, t, a, sends', recvs')
  {
    if recvs' != recvs {
      FirstFromIs(recvs', t, FirstFrom(recvs, t));
    }
  }

  /** A channel's expected contents depend on two counters only. */
  lemma SameInFlight(c: Case, s: System, s': System, ch: Channel)
    requires |s.procs| == |s'.procs| == c.l.size
    requires Routed(c, ch) ==>
               && Irrelevant(s.procs[ch.src].Sends(), s'.procs[ch.src].Sends(), ch.tag - Tag(0))
               && Irrelevant(s.procs[ch.dst].Receives(), s'.procs[ch.dst].Receives(), ch.tag - Tag(0))
    ensures InFlight(c, s, ch) == InFlight(c, s', ch)
  {
    if Routed(c, ch) {
      SameFlight(c, ch.tag - Tag(0), ch.src, s.procs[ch.src].Sends(), s'.procs[ch.src].Sends(),
                 s.procs[ch.dst].Receives(), s'.procs[ch.dst].Receives());
    }
  }

  /** Entering and leaving a stage move no counter and touch no channel. */
  lemma QuietProc(c: Case, stages: nat, s: System, r: nat, act: Action)
    requires |s.procs| == c.l.size && Enabled(c, stages, s, r, act) && (act == EnterStage || act == Leave)
    requires ProcOk(c, stages, s, r)
    ensures ProcOk(c, stages, Do(c, s, r, act), r)
  {
    hide After, Kind;
  }

  lemma QuietKeeps(c: Case, stages: nat, s: System, r: nat, act: Action)
    requires Inv(c, stages, s) && Enabled(c, stages, s, r, act) && (act == EnterStage || act == Leave)
    ensures Inv(c, stages, Do(c, s, r, act))
  {
    hide Expected, InFlight, After;
    var s' := Do(c, s, r, act);
    assert ProcOk(c, stages, s, r);
    QuietProc(c, stages, s, r, act);
    OthersOk(c, stages, s, s', r);
    forall b: nat, j: nat | b < c.l.size
      ensures SentFirst(c, s', b, j)
    {
      assert SentFirst(c, s, b, j);
    }
    forall ch
      ensures ChannelOk(c, s', ch)
    {
      assert ChannelOk(c, s, ch);
      SameInFlight(c, s, s', ch);
    }
  }

  /** An action of rank r leaves the other ranks as they were. */
  lemma OthersOk(c: Case, stages: nat, s: System, s': System, r: nat)
    requires |s.procs| == |s'.procs| == c.l.size && r < c.l.size && s'.procs == s.procs[r := s'.procs[r]]
    requires forall q: nat | q < c.l.size :: ProcOk(c, stages, s, q)
    requires ProcOk(c, stages, s', r)
    ensures forall q: nat | q < c.l.size :: ProcOk(c, stages, s', q)
  {
    forall q: nat | q < c.l.size
      ensures ProcOk(c, stages, s', q)
    {
      assert ProcOk(c, stages, s, q);
    }
  }

  /** What a rank posts is the stage's message, whether or not it has already received. */
  lemma PostedWords(c: Case, p: Proc, r: nat)
    requires r < c.l.size && p.begun && p.bufs == Expected(c, p, r)
    ensures Outgoing(p.bufs, c.n, Kind(p.pc)) == Message(c, p.pc, r)
  {
    if p.received {
      AfterStep(c, p.pc, r);
    }
  }

  lemma PostOnRoute(c: Case, stages: nat, s: System, r: nat)
    requires Inv(c, stages, s) && Enabled(c, stages, s, r, PostSend)
    ensures var s' := Do(c, s, r, PostSend); var ch := Outbound(c, r, s.procs[r].pc);
            s'.Queue(ch) == InFlight(c, s', ch)
  {
    var p := s.procs[r];
    var ch := Outbound(c, r, p.pc);
    assert ChannelOk(c, s, ch) && ProcOk(c, stages, s, r);
    NextToSend(c, s, r);
    PostedWords(c, p, r);
    var s' := Do(c, s, r, PostSend);
    assert s'.procs[ch.dst].Receives() == s.procs[ch.dst].Receives();
  }

  lemma PostKeeps(c: Case, stages: nat, s: System, r: nat)
    requires Inv(c, stages, s) && Enabled(c, stages, s, r, PostSend)
    ensures Inv(c, stages, Do(c, s, r, PostSend))
  {
    var s' := Do(c, s, r, PostSend);
    assert ProcOk(c, stages, s, r);
    OthersOk(c, stages, s, s', r);
    forall b: nat, j: nat | b < c.l.size
      ensures SentFirst(c, s', b, j)
    {
      assert SentFirst(c, s, b, j);
    }
    forall ch
      ensures ChannelOk(c, s', ch)
    {
      assert ChannelOk(c, s, ch);
      if ch == Outbound(c, r, s.procs[r].pc) {
        PostOnRoute(c, stages, s, r);
      } else {
        SameInFlight(c, s, s', ch);
      }
    }
  }

  /** A waiting rank finds exactly the message of its current stage. */
  lemma ReceivedWords(c: Case, stages: nat, s: System, r: nat)
    requires Inv(c, stages, s) && Enabled(c, stages, s, r, Receive)
    ensures var j := s.procs[r].pc; var a := Src(c.l, Kind(j), r);
            && j < s.procs[a].Sends()
            && s.Queue(Inbound(c, r, j)) == [Message(c, j, a)]
  {
    var j := s.procs[r].pc;
    var ch := Inbound(c, r, j);
    FirstFromSelf(j);
    SrcDest(c.l, Kind(j), ch.src, r);
    assert ChannelOk(c, s, ch);
  }

  lemma ReceiveOnRoute(c: Case, stages: nat, s: System, r: nat)
    requires Inv(c, stages, s) && Enabled(c, stages, s, r, Receive)
    ensures var s' := Do(c, s, r, Receive); InFlight(c, s', Inbound(c, r, s.procs[r].pc)) == []
  {
    var j := s.procs[r].pc;
    var ch := Inbound(c, r, j);
    SrcDest(c.l, Kind(j), ch.src, r);
    AtMostOne(c, s, Kind(j), ch.src);
    FirstFromSelf(j);
    FlightDone(c, ch.src, s.procs[ch.src].Sends(), j);
    var s' := Do(c, s, r, Receive);
    assert s'.procs[ch.src].Sends() == s.procs[ch.src].Sends() && s'.procs[r].Receives() == j + 1;
  }

  lemma FlightDone(c: Case, a: nat, sends: nat, j: nat)
    requires a < c.l.size && sends <= j + 4
    ensures Flight(c, Kind(j), a, sends, j + 1) == []
  {
    FirstFromSelf(j);
  }

  lemma ReceiveSentFirst(c: Case, stages: nat, s: System, r: nat, b: nat, j: nat)
    requires Inv(c, stages, s) && Enabled(c, stages, s, r, Receive) && b < c.l.size
    ensures SentFirst(c, Do(c, s, r, Receive), b, j)
  {
    var s' := Do(c, s, r, Receive);
    var a := Src(c.l, Kind(j), b);
    assert SentFirst(c, s, b, j);
    assert s'.procs[a].Sends() == s.procs[a].Sends();
    if b == r && j == s.procs[r].pc {
      ReceivedWords(c, stages, s, r);
    } else {
      assert s'.procs[b].Receives() > j ==> s.procs[b].Receives() > j;
    }
  }

  lemma ReceiveProc(c: Case, stages: nat, s: System, r: nat)
    requires Inv(c, stages, s) && Enabled(c, stages, s, r, Receive)
    ensures ProcOk(c, stages, Do(c, s, r, Receive), r)
  {
    hide SentFirst, ChannelOk, After;
    ReceivedWords(c, stages, s, r);
    assert ProcOk(c, stages, s, r);
    AfterStep(c, s.procs[r].pc, r);
  }

  lemma ReceiveChannel(c: Case, stages: nat, s: System, r: nat, ch: Channel)
    requires Inv(c, stages, s) && Enabled(c, stages, s, r, Receive)
    ensures ChannelOk(c, Do(c, s, r, Receive), ch)
  {
    hide ProcOk, SentFirst, Deliver, After, InFlight;
    ReceivedWords(c, stages, s, r);
    assert ChannelOk(c, s, ch);
    if ch == Inbound(c, r, s.procs[r].pc) {
      ReceiveOnRoute(c, stages, s, r);
    } else {
      if Routed(c, ch) {
        SrcDest(c.l, ch.tag - Tag(0), ch.src, r);
      }
      SameInFlight(c, s, Do(c, s, r, Receive), ch);
    }
  }

  lemma ReceiveKeeps(c: Case, stages: nat, s: System, r: nat)
    requires Inv(c, stages, s) && Enabled(c, stages, s, r, Receive)
    ensures Inv(c, stages, Do(c, s, r, Receive))
  {
    hide ProcOk, ChannelOk, SentFirst, Deliver, After;
    var s' := Do(c, s, r, Receive);
    ReceiveProc(c, stages, s, r);
    OthersOk(c, stages, s, s', r);
    forall b: nat, j: nat | b < c.l.size
      ensures SentFirst(c, s', b, j)
    {
      ReceiveSentFirst(c, stages, s, r, b, j);
    }
    forall ch
      ensures ChannelOk(c, s', ch)
    {
      ReceiveChannel(c, stages, s, r, ch);
    }
  }

  lemma StepKeeps(c: Case, stages: nat, s: System, s': System)
    requires Inv(c, stages, s) && Step(c, stages, s, s')
    ensures Inv(c, stages, s')
    ensures Remaining(stages, s'.procs) == Remaining(stages, s.procs) - 1
  {
    var r: nat, act :| Enabled(c, stages, s, r, act) && s' == Do(c, s, r, act);
    match act {
      case EnterStage => QuietKeeps(c, stages, s, r, act);
      case PostSend => PostKeeps(c, stages, s, r);
      case Receive => ReceiveKeeps(c, stages, s, r);
      case Leave => QuietKeeps(c, stages, s, r, act);
    }
    assert ProcOk(c, stages, s, r);
    RemainingUpdate(stages, s.procs, r, s'.procs[r]);
  }

  // ----- termination

  /** Micro-steps a rank still has to take. */
  function Left(stages: nat, p: Proc): int {
    4 * (stages - p.pc) - (if p.begun then 1 else 0) - (if p.posted then 1 else 0) - (if p.received then 1 else 0)
  }

  function Remaining(stages: nat, procs: seq<Proc>): int {
    if |procs| == 0 then 0 else Remaining(stages, procs[..|procs| - 1]) + Left(stages, procs[|procs| - 1])
  }

  lemma {:induction false} RemainingUpdate(stages: nat, procs: seq<Proc>, r: nat, p: Proc)
    requires r < |procs|
    ensures Remaining(stages, procs[r := p]) == Remaining(stages, procs) - Left(stages, procs[r]) + Left(stages, p)
  {
    var m := |procs| - 1;
    if r == m {
      assert procs[r := p][..m] == procs[..m];
    } else {
      RemainingUpdate(stages, procs[..m], r, p);
      assert procs[r := p][..m] == procs[..m][r := p];
    }
  }

  lemma {:induction false} RemainingStart(stages: nat, procs: seq<Proc>)
    requires forall r | 0 <= r < |procs| :: Left(stages, procs[r]) == 4 * stages
    ensures Remaining(stages, procs) == 4 * stages * |procs|
  {
    if |procs| > 0 {
      RemainingStart(stages, procs[..|procs| - 1]);
      assert 4 * stages * (|procs| - 1) + 4 * stages == 4 * stages * |procs|;
    }
  }

  lemma {:induction false} RemainingBound(stages: nat, procs: seq<Proc>)
    requires forall r | 0 <= r < |procs| :: Left(stages, procs[r]) >= 0
    ensures Remaining(stages, procs) >= 0
    ensures Remaining(stages, procs) == 0 <==> forall r | 0 <= r < |procs| :: Left(stages, procs[r]) == 0
  {
    if |procs| > 0 {
      RemainingBound(stages, procs[..|procs| - 1]);
    }
  }

  // ----- the theorems

  /** Every reachable state satisfies the invariant, and a run makes one unit of progress per
      step: with four stages to an exchange, no run is longer than 16 steps per exchange and rank. */
  lemma {:induction false} RunsAreSafe(c: Case, stages: nat, run: seq<System>)
    requires IsRun(c, stages, run)
    ensures Inv(c, stages, run[|run| - 1])
    ensures Remaining(stages, run[|run| - 1].procs) == 4 * stages * c.l.size - (|run| - 1)
    ensures |run| - 1 <= 4 * stages * c.l.size
  {
    var m := |run| - 1;
    if m == 0 {
      RemainingStart(stages, run[0].procs);
    } else {
      RunsAreSafe(c, stages, run[..m]);
      assert Step(c, stages, run[m - 1], run[m]);
      StepKeeps(c, stages, run[m - 1], run[m]);
    }
    forall r | 0 <= r < c.l.size
      ensures Left(stages, run[m].procs[r]) >= 0
    {
      assert ProcOk(c, stages, run[m], r);
    }
    RemainingBound(stages, run[m].procs);
  }

  lemma {:induction false} LeastAdvanced(s: System, k: nat) returns (r: nat)
    requires 0 < k <= |s.procs|
    ensures r < k && forall q: nat | q < k :: s.procs[r].pc <= s.procs[q].pc
  {
    if k == 1 {
      r := 0;
    } else {
      r := LeastAdvanced(s, k - 1);
      if s.procs[k - 1].pc < s.procs[r].pc {
        r := k - 1;
      }
    }
  }

  /** No deadlock, on any grid: while some rank is unfinished some rank can step, even if the
      system buffers nothing. */
  lemma DeadlockFree(c: Case, stages: nat, s: System) returns (r: nat, act: Action)
    requires Inv(c, stages, s)
    requires exists q: nat :: q < c.l.size && s.procs[q].pc != stages
    ensures Unbuffered(c, stages, s, r, act)
  {
    r := LeastAdvanced(s, c.l.size);
    var p := s.procs[r];
    assert p.pc < stages by {
      var q: nat :| q < c.l.size && s.procs[q].pc != stages;
      assert ProcOk(c, stages, s, q);
    }
    if !p.begun {
      act := EnterStage;
    } else if !p.posted {
      act := PostSend;
    } else if !p.received {
      r, act := Awaiting(c, stages, s, r);
    } else {
      r, act := Handed(c, stages, s, r);
    }
  }

  /** A least advanced rank waiting for a message either has it, or its source can step. */
  lemma Awaiting(c: Case, stages: nat, s: System, r: nat) returns (r': nat, act: Action)
    requires Inv(c, stages, s) && r < c.l.size && s.procs[r].pc < stages
    requires s.procs[r].begun && !s.procs[r].received
    requires forall q: nat | q < c.l.size :: s.procs[r].pc <= s.procs[q].pc
    ensures Unbuffered(c, stages, s, r', act)
  {
    var j := s.procs[r].pc;
    var into := Inbound(c, r, j);
    SrcDest(c.l, Kind(j), into.src, r);
    FirstFromSelf(j);
    assert ChannelOk(c, s, into) && ProcOk(c, stages, s, into.src);
    var q := s.procs[into.src];
    if q.Sends() > j {
      r', act := r, Receive;
    } else {
      r' := into.src;
      act := if q.begun then PostSend else EnterStage;
    }
  }

  /** If a least advanced rank's own message is still on its way, its destination can step. */
  lemma Handed(c: Case, stages: nat, s: System, r: nat) returns (r': nat, act: Action)
    requires Inv(c, stages, s) && r < c.l.size && s.procs[r].pc < stages
    requires s.procs[r].posted && s.procs[r].received
    requires forall q: nat | q < c.l.size :: s.procs[r].pc <= s.procs[q].pc
    ensures Unbuffered(c, stages, s, r', act)
  {
    var j := s.procs[r].pc;
    var out := Outbound(c, r, j);
    SrcDest(c.l, Kind(j), r, out.dst);
    assert ChannelOk(c, s, out) && ProcOk(c, stages, s, out.dst) && SentFirst(c, s, out.dst, j);
    if s.Queue(out) == [] {
      r', act := r, Leave;
    } else {
      var q := s.procs[out.dst];
      assert Inbound(c, out.dst, q.pc) == out;
      r' := out.dst;
      act := if q.begun then Receive else EnterStage;
    }
  }

  lemma StuckIsDone(c: Case, stages: nat, s: System)
    requires Inv(c, stages, s) && Stuck(c, stages, s)
    ensures forall r: nat | r < c.l.size :: s.procs[r].pc == stages
  {
    hide ProcOk, Causal, ChannelOk, Enabled;
    if exists q: nat :: q < c.l.size && s.procs[q].pc != stages {
      var r, act := DeadlockFree(c, stages, s);
    }
  }

  /** Schedule independence: a run that can go no further has finished every stage, after the
      same number of steps and in the same buffers whatever the schedule, with no message left. */
  lemma CompleteRuns(c: Case, stages: nat, run: seq<System>)
    requires IsRun(c, stages, run) && Stuck(c, stages, run[|run| - 1])
    ensures var s := run[|run| - 1];
            && |s.procs| == c.l.size
            && (forall r: nat | r < c.l.size :: s.procs[r].bufs == After(c, stages)[r])
            && (forall ch :: s.Queue(ch) == [])
    ensures |run| - 1 == 4 * stages * c.l.size
  {
    hide After, Enabled;
    var s := run[|run| - 1];
    RunsAreSafe(c, stages, run);
    StuckIsDone(c, stages, s);
    forall r: nat | r < c.l.size
      ensures Left(stages, s.procs[r]) == 0 && s.procs[r].bufs == After(c, stages)[r]
    {
      assert ProcOk(c, stages, s, r);
    }
    RemainingBound(stages, s.procs);
    forall ch
      ensures s.Queue(ch) == []
    {
      assert ChannelOk(c, s, ch);
    }
  }

  /** Bounded skew: the completed stages of torus neighbours never differ by more than four,
      and no channel ever holds more than one message, nor one of the wrong length. */
  lemma BoundedSkew(c: Case, stages: nat, run: seq<System>, b: nat, t: nat)
    requires IsRun(c, stages, run) && b < c.l.size && t < 4
    ensures var s := run[|run| - 1]; var a := Src(c.l, t, b);
            && |s.procs| == c.l.size
            && s.procs[b].pc - 4 <= s.procs[a].pc <= s.procs[b].pc + 4
            && |s.Queue(Channel(a, b, Tag(t)))| <= 1
            && (forall m | m in s.Queue(Channel(a, b, Tag(t))) :: |m| == SegLen(c.n, t))
  {
    var s := run[|run| - 1];
    var a := Src(c.l, t, b);
    RunsAreSafe(c, stages, run);
    NotAhead(c, s, b, t);
    SrcDest(c.l, t, a, b);
    HearsBack(c.l, t, a);
    NotAhead(c, s, a, Opposite(t));
    var ch := Channel(a, b, Tag(t));
    assert ChannelOk(c, s, ch);
  }

  lemma NotAhead(c: Case, s: System, b: nat, t: nat)
    requires |s.procs| == c.l.size && Causal(c, s) && b < c.l.size && t < 4
    ensures s.procs[b].pc - 4 <= s.procs[Src(c.l, t, b)].pc
  {
    if s.procs[b].pc >= 4 {
      Behind(c, s, b, FirstFrom(s.procs[b].pc - 4, t));
    }
  }
}
