/** All ranks running the benchmark on the RCCL backend, in any mode, with validation: every
    exchange the driver or validation asks for is made by host and device step by step. The
    messages carry no tag at all, so it is the collective calls alone that keep the exchanges of
    different halo lengths, samples and validations apart. */
module RcclRuns {
  import opened Topology
  import opened Halo
  import opened Reduction
  import opened Control
  import opened Setups
  import Validation
  import Spmd
  import Rccl = RcclStream
  import Wires = RcclWires
  import Exchanges = RcclExchange
  import Backlog

  /** memory stands for what device memory holds after an allocation, for rank, halo index and
      previous buffers; modes for the style of each exchange since the last collective call. */
  datatype Cluster = Cluster(cfg: Config, grid: Grid, modes: nat -> Rccl.Modes, memory: (nat, nat, Buffers) -> Buffers) {
    function Size(): nat { grid.Size() }

    function Wiring(): (l: Links)
      ensures l.size == Size()
    {
      Torus(grid)
    }
  }

  /** The driver of every rank, and their hosts, devices and messages. The counter k of a rank
      counts its exchanges since it last returned from a collective call. */
  datatype State = State(w: Spmd.World, net: Rccl.System)

  datatype Action = Drive(call: Spmd.Action) | Stream(step: Rccl.Action)

  ghost predicate Shaped(cl: Cluster, s: State) {
    |s.w.ranks| == |s.w.contributions| == |s.net.ranks| == cl.Size()
  }

  // ----- what a rank does on its own

  function HaloIndex(c: Ctl): nat {
    match c
    case BeginHalo(h) => h
    case WarmUp(h) => h
    case CalibrationBarrier(h) => h
    case Calibrating(h, _) => h
    case ReduceCalibration(h) => h
    case Finished | Rejected | Inconsistent => 0
    case _ => c.at.h
  }

  /** The halo length in use at a point of the program. */
  function HaloAt(cfg: Config, c: Ctl): nat {
    if HaloIndex(c) < |cfg.halos| then cfg.halos[HaloIndex(c)] else 0
  }

  /** The new buffers hold arbitrary words of the right number. */
  function Allocated(cl: Cluster, r: nat, h: nat, b: Buffers): (b': Buffers)
    ensures b'.Sized(HaloAt(cl.cfg, BeginHalo(h)))
  {
    var m := cl.memory(r, h, b);
    if m.Sized(HaloAt(cl.cfg, BeginHalo(h))) then m else Prepared(b, HaloAt(cl.cfg, BeginHalo(h)), r)
  }

  /** Between two collective calls validation fills hoew: with the pattern before its exchange,
      with the rank after it has passed. */
  function Filled(cfg: Config, r: nat, before: Ctl, after: Ctl, b: Buffers): Buffers {
    if after.Validating? then b.(hoew := Validation.Pattern(r, HaloAt(cfg, after)))
    else if before.Validating? && after.SampleBarrier? then b.(hoew := seq(BufferWords(HaloAt(cfg, after)), _ => r))
    else b
  }

  function Fresh(b: Buffers): Rccl.Rank {
    Rccl.Rank(0, 0, 0, [], false, false, false, false, b)
  }

  /** The rank is inside the exchange of the benchmark or that of a validation. */
  predicate InExchange(cfg: Config, p: Spmd.Rank, k: nat) {
    !p.entered && (Request(cfg, p.ctl).Exchange? || (p.ctl.Validating? && k == 0))
  }

  /** The verdict of the comparison on rank r. */
  ghost predicate Accepts(cl: Cluster, r: nat, n: nat, b: Buffers)
    requires r < cl.Size()
  {
    b.Sized(n) && Validation.Matches(Validation.SourcesOf(cl.grid, r), n, b.hons, b.hoew)
  }

  function Blank(l: Links, n: nat): Case {
    Setting(l, n, seq(l.size, _ => Prepared(Buffers([], [], [], []), n, 0)))
  }

  // ----- the system

  /** Hosts run inside exchanges only. Local driver steps are setups, exchange returns with the
      last step of the host, and validation brings the verdict on what its exchange left. */
  ghost predicate Enabled(cl: Cluster, s: State, r: nat, act: Action) {
    Shaped(cl, s) && r < cl.Size() &&
    var p, q := s.w.ranks[r], s.net.ranks[r];
    match act
    case Drive(a) =>
      && Spmd.Enabled(cl.cfg, s.w, r, a)
      && (a.Local? ==> !Request(cl.cfg, p.ctl).Exchange?)
      && (a.Enter? && p.ctl.Validating? ==> q.k == 1 && a.x == [if Accepts(cl, r, HaloAt(cl.cfg, p.ctl), q.bufs) then 1.0 else 0.0])
    case Stream(a) =>
      && Rccl.Enabled(Blank(cl.Wiring(), HaloAt(cl.cfg, p.ctl)), cl.modes(p.left), q.k + 1, s.net, r, a)
      && (a.Host? ==> InExchange(cl.cfg, p, q.k))
  }

  /** The host's next step is to return from an exchange of the benchmark. */
  predicate Returns(cfg: Config, p: Spmd.Rank, q: Rccl.Rank, a: Rccl.Action) {
    a.Host? && q.op >= 4 && Request(cfg, p.ctl).Exchange?
  }

  ghost function Do(cl: Cluster, s: State, r: nat, act: Action): State
    requires Enabled(cl, s, r, act)
  {
    var p, q := s.w.ranks[r], s.net.ranks[r];
    match act
    case Drive(a) =>
      var w' := Spmd.Do(cl.cfg, s.w, r, a);
      State(w',
            if a.Local? then s.net.(ranks := s.net.ranks[r := Fresh(Allocated(cl, r, HaloIndex(p.ctl), q.bufs))])
            else if a.Leave? then s.net.(ranks := s.net.ranks[r := Fresh(Filled(cl.cfg, r, p.ctl, w'.ranks[r].ctl, q.bufs))])
            else s.net)
    case Stream(a) =>
      State(if Returns(cl.cfg, p, q, a) then Spmd.Do(cl.cfg, s.w, r, Spmd.Local) else s.w,
            Rccl.Do(Blank(cl.Wiring(), HaloAt(cl.cfg, p.ctl)), cl.modes(p.left), s.net, r, a))
  }

  ghost predicate Step(cl: Cluster, s: State, s': State) {
    exists r: nat, act :: Enabled(cl, s, r, act) && s' == Do(cl, s, r, act)
  }

  function Start(cl: Cluster): State {
    State(Spmd.Start(cl.cfg, cl.Size()), Rccl.System(seq(cl.Size(), _ => Fresh(Buffers([], [], [], []))), map[]))
  }

  ghost predicate IsRun(cl: Cluster, run: seq<State>) {
    && |run| > 0 && run[0] == Start(cl)
    && forall i | 0 <= i < |run| - 1 :: Step(cl, run[i], run[i + 1])
  }

  // ----- exchanges between two collective calls

  /** The exchanges a rank still makes before its next collective call has all it needs. */
  function Todo(cfg: Config, c: Ctl): nat
    decreases LocalLeft(cfg, c)
  {
    if Terminal(c) then 0
    else if Collective(Request(cfg, c)) then (if c.Validating? then 1 else 0)
    else (if Request(cfg, c).Exchange? then 1 else 0) + Todo(cfg, Move(cfg, c, []))
  }

  function Due(cfg: Config, results: seq<seq<TimeRank>>): nat {
    Todo(cfg, Epoch(cfg, results))
  }

  /** Local steps keep the halo length and lead neither to a setup nor to validation. */
  lemma LocalMove(cfg: Config, c: Ctl)
    requires !Terminal(c) && !Collective(Request(cfg, c))
    ensures var d := Move(cfg, c, []);
            !Terminal(d) && HaloIndex(d) == HaloIndex(c) && !d.BeginHalo? && !d.Validating?
    ensures Todo(cfg, c) == (if Request(cfg, c).Exchange? then 1 else 0) + Todo(cfg, Move(cfg, c, []))
  {
  }

  lemma {:induction false} WaitHalo(cfg: Config, c: Ctl)
    requires !Terminal(c)
    ensures !Terminal(Wait(cfg, c)) && HaloIndex(Wait(cfg, c)) == HaloIndex(c)
    decreases LocalLeft(cfg, c)
  {
    if !Collective(Request(cfg, c)) {
      LocalMove(cfg, c);
      WaitHalo(cfg, Move(cfg, c, []));
    }
  }

  /** After a collective call the halo length changes by a setup only. */
  lemma CollectiveMove(cfg: Config, c: Ctl, reply: seq<TimeRank>)
    requires !Terminal(c) && Collective(Request(cfg, c))
    ensures var d := Move(cfg, c, reply); !Terminal(d) && !d.BeginHalo? ==> HaloIndex(d) == HaloIndex(c)
    ensures Move(cfg, c, reply).Rejected? ==> c.Validating? && First(reply) != 1.0
  {
    hide Kept, Iterations;
  }

  // ----- the invariant

  /** The rank has not come to the exchanges of the current segment: it has not returned from the
      last collective call, or has its setup to do. */
  predicate Behind(s: State, r: nat)
    requires r < |s.w.ranks|
  {
    s.w.ranks[r].left < |s.w.results| || s.w.ranks[r].ctl.BeginHalo?
  }

  /** What its buffers will hold when it does. */
  function Coming(cl: Cluster, s: State, r: nat): Buffers
    requires r < |s.w.ranks| == |s.net.ranks|
  {
    var p, b, e := s.w.ranks[r], s.net.ranks[r].bufs, Epoch(cl.cfg, s.w.results);
    var b' := if p.left < |s.w.results| then Filled(cl.cfg, r, p.ctl, e, b) else b;
    if e.BeginHalo? then Allocated(cl, r, e.h, b') else b'
  }

  /** The exchange protocol as if those ranks had come to them. */
  ghost function View(s: State, c: Case): (v: Rccl.System)
    requires |s.w.ranks| == |s.net.ranks| == c.l.size
    ensures |v.ranks| == c.l.size
  {
    Rccl.System(seq(c.l.size, r requires 0 <= r < c.l.size => RankView(s, c, r)), s.net.chans)
  }

  ghost function RankView(s: State, c: Case, r: nat): Rccl.Rank
    requires r < |s.w.ranks| == |s.net.ranks| == c.l.size
  {
    if Behind(s, r) then Fresh(c.init[r]) else s.net.ranks[r]
  }

  /** The exchanges a rank has made are those its driver has asked for. */
  predicate Counted(cfg: Config, p: Spmd.Rank, k: nat, due: nat) {
    if p.entered then k == due
    else if p.ctl.Validating? then due == 1 && k <= 1
    else k + Todo(cfg, p.ctl) == due
  }

  ghost predicate RankJoined(cl: Cluster, s: State, c: Case, r: nat)
    requires r < |s.w.ranks| == |s.net.ranks| == |s.w.contributions| && c.l.size == |s.w.ranks|
  {
    var p, q := s.w.ranks[r], s.net.ranks[r];
    && (if Behind(s, r) then Coming(cl, s, r) == c.init[r] && q.stream == [] && !InExchange(cl.cfg, p, q.k)
        else Counted(cl.cfg, p, q.k, Due(cl.cfg, s.w.results)) && (!InExchange(cl.cfg, p, q.k) ==> Exchanges.Between(q)))
    && (p.entered && p.left == |s.w.results| && p.ctl.Validating? ==> s.w.contributions[r] == [1.0])
  }

  /** The segments of a validated sample before its reductions: hoew was filled with the rank. */
  predicate Numbering(cfg: Config, e: Ctl) {
    cfg.validating && (e.SampleBarrier? || e.Timing?)
  }

  ghost predicate Joined(cl: Cluster, s: State, c: Case) {
    var e := Epoch(cl.cfg, s.w.results);
    && Shaped(cl, s) && c.l == cl.Wiring() && Spmd.Inv(cl.cfg, s.w)
    && (!Terminal(e) ==> c.n == HaloAt(cl.cfg, e)) && !e.Rejected? && (e.Validating? ==> Validation.Patterned(c))
    && (Numbering(cl.cfg, e) ==> forall r: nat | r < c.l.size :: RankWords(c.init[r], r))
    && (forall r: nat | r < cl.Size() :: RankJoined(cl, s, c, r))
    && Wires.Inv(c, cl.modes(|s.w.results|), Due(cl.cfg, s.w.results), View(s, c))
  }

  /** What the driver's invariant says of one rank. */
  lemma Driven(cl: Cluster, s: State, c: Case, r: nat)
    requires Joined(cl, s, c) && r < cl.Size()
    ensures var p, e := s.w.ranks[r], Epoch(cl.cfg, s.w.results);
            && (p.left < |s.w.results| ==>
                  p.entered && p.left + 1 == |s.w.results| && e == Move(cl.cfg, p.ctl, s.w.results[p.left]))
            && (p.left == |s.w.results| ==> Wait(cl.cfg, p.ctl) == Wait(cl.cfg, e))
            && p.left <= |s.w.results|
            && (p.entered ==> Collective(Request(cl.cfg, p.ctl)) && !Terminal(p.ctl))
            && (p.ctl.BeginHalo? ==> !p.entered && p.ctl == e && e.h < |cl.cfg.halos|)
  {
    hide Wait, Segment, Script, Move, Wires.Inv;
    var p := s.w.ranks[r];
    assert Spmd.RankOk(cl.cfg, s.w, r);
    assert s.w.results[..|s.w.results|] == s.w.results;
    if p.left < |s.w.results| {
      Spmd.NextEpoch(cl.cfg, s.w.results, p.left);
    }
    if p.ctl.BeginHalo? {
      AlwaysPlaced(cl.cfg, s.w, r);
    }
  }

  /** A rank in the current segment that is not done uses its halo length. */
  lemma Current(cl: Cluster, s: State, c: Case, r: nat)
    requires Joined(cl, s, c) && r < cl.Size() && s.w.ranks[r].left == |s.w.results| && !Terminal(s.w.ranks[r].ctl)
    ensures !Terminal(Epoch(cl.cfg, s.w.results)) && c.n == HaloAt(cl.cfg, s.w.ranks[r].ctl)
  {
    hide Spmd.Inv, Wires.Inv, Move, Epoch;
    var p, e := s.w.ranks[r], Epoch(cl.cfg, s.w.results);
    Driven(cl, s, c, r);
    WaitHalo(cl.cfg, p.ctl);
    if !Terminal(e) {
      WaitHalo(cl.cfg, e);
    }
  }

  // ----- steps of hosts and devices

  /** A rank inside an exchange is in the current segment and has exchanges left to make. */
  lemma Inside(cl: Cluster, s: State, c: Case, r: nat)
    requires Joined(cl, s, c) && r < cl.Size() && InExchange(cl.cfg, s.w.ranks[r], s.net.ranks[r].k)
    ensures !Behind(s, r) && s.w.ranks[r].left == |s.w.results| && !Terminal(s.w.ranks[r].ctl)
    ensures s.net.ranks[r].k < Due(cl.cfg, s.w.results) && c.n == HaloAt(cl.cfg, s.w.ranks[r].ctl)
  {
    hide Spmd.Inv, Wires.Inv, Move, Epoch, Wait, HaloAt, Due, Coming;
    var p := s.w.ranks[r];
    Driven(cl, s, c, r);
    assert RankJoined(cl, s, c, r);
    Current(cl, s, c, r);
    if !p.ctl.Validating? {
      LocalMove(cl.cfg, p.ctl);
    }
  }

  /** Only such ranks have work on their stream. */
  lemma Streaming(cl: Cluster, s: State, c: Case, r: nat)
    requires Joined(cl, s, c) && r < cl.Size() && s.net.ranks[r].stream != []
    ensures InExchange(cl.cfg, s.w.ranks[r], s.net.ranks[r].k)
  {
    hide Spmd.Inv, Wires.SentFirst, Wires.WireAt, Rccl.DeviceOk, Counted, Coming, InExchange, Due, HaloAt, Epoch;
    assert RankJoined(cl, s, c, r);
    if !InExchange(cl.cfg, s.w.ranks[r], s.net.ranks[r].k) {
      var v, modes := View(s, c), cl.modes(|s.w.results|);
      assert Wires.RankAt(c, modes, Due(cl.cfg, s.w.results), v, r);
      Exchanges.BetweenDrained(c.n, Due(cl.cfg, s.w.results), modes(r, v.ranks[r].k), v.ranks[r]);
    }
  }

  /** A step of the real system is one of the protocol. */
  lemma StreamView(cl: Cluster, s: State, c: Case, r: nat, a: Rccl.Action)
    requires Joined(cl, s, c) && Enabled(cl, s, r, Stream(a))
    ensures InExchange(cl.cfg, s.w.ranks[r], s.net.ranks[r].k)
    ensures var v, modes := View(s, c), cl.modes(|s.w.results|);
            && v.ranks[r] == s.net.ranks[r] && v.chans == s.net.chans
            && Rccl.Enabled(c, modes, Due(cl.cfg, s.w.results), v, r, a)
            && Rccl.Do(c, modes, v, r, a) == v.(ranks := v.ranks[r := Do(cl, s, r, Stream(a)).net.ranks[r]],
                                                chans := Do(cl, s, r, Stream(a)).net.chans)
  {
    hide Spmd.Inv, Wires.Inv, InExchange, Counted, Coming, HaloAt, Due, Epoch, Rccl.HostStep, Rccl.Sending, Rccl.Receiving, Rccl.Popping, Returns,
         Outgoing;
    if !a.Host? {
      Streaming(cl, s, c, r);
    }
    Inside(cl, s, c, r);
  }

  /** What a step of rank r's host or device changes in its counters. */
  lemma StreamRank(cl: Cluster, s: State, r: nat, a: Rccl.Action)
    requires Enabled(cl, s, r, Stream(a))
    ensures var q, q' := s.net.ranks[r], Do(cl, s, r, Stream(a)).net.ranks[r];
            if a.Host? && q.op >= 4 then q'.k == q.k + 1 && Exchanges.Between(q') else q'.k == q.k && (a.Host? || (q'.op == q.op && q'.at == q.at))
  {
    hide Spmd.Enabled, Spmd.Do, InExchange, HaloAt, Returns;
  }

  lemma StreamCounted(cl: Cluster, s: State, c: Case, r: nat, a: Rccl.Action)
    requires Joined(cl, s, c) && Enabled(cl, s, r, Stream(a))
    ensures RankJoined(cl, Do(cl, s, r, Stream(a)), c, r)
    ensures !Behind(Do(cl, s, r, Stream(a)), r)
  {
    hide Spmd.Inv, Wires.Inv, Coming, HaloAt, Due, Epoch, Move, Rccl.Enabled, Rccl.Do, Request, Todo;
    var p, q := s.w.ranks[r], s.net.ranks[r];
    StreamView(cl, s, c, r, a);
    Inside(cl, s, c, r);
    StreamRank(cl, s, r, a);
    assert RankJoined(cl, s, c, r);
    if Returns(cl.cfg, p, q, a) {
      LocalMove(cl.cfg, p.ctl);
      ExchangePoint(cl.cfg, p.ctl);
    }
  }

  lemma ExchangePoint(cfg: Config, c: Ctl)
    requires Request(cfg, c).Exchange?
    ensures !Terminal(c) && !Collective(Request(cfg, c)) && !c.Validating? && !c.BeginHalo?
  {
  }

  /** A step that changes nothing of another rank. */
  lemma OtherJoined(cl: Cluster, s: State, s': State, c: Case, q: nat)
    requires Shaped(cl, s) && Shaped(cl, s') && c.l.size == cl.Size() && q < cl.Size() && RankJoined(cl, s, c, q)
    requires s'.w.ranks[q] == s.w.ranks[q] && s'.net.ranks[q] == s.net.ranks[q]
    requires s'.w.results == s.w.results && s'.w.contributions[q] == s.w.contributions[q]
    ensures RankJoined(cl, s', c, q) && RankView(s', c, q) == RankView(s, c, q)
  {
  }

  lemma StreamKeeps(cl: Cluster, s: State, c: Case, r: nat, a: Rccl.Action)
    requires Joined(cl, s, c) && Enabled(cl, s, r, Stream(a))
    ensures Joined(cl, Do(cl, s, r, Stream(a)), c)
  {
    hide Spmd.Inv, Wires.Inv, Due, Epoch, HaloAt, Rccl.Do, InExchange, RankJoined, Behind, Move, Request;
    var s', modes := Do(cl, s, r, Stream(a)), cl.modes(|s.w.results|);
    StreamView(cl, s, c, r, a);
    StreamCounted(cl, s, c, r, a);
    Exchanges.DoKeeps(c, modes, Due(cl.cfg, s.w.results), View(s, c), r, a);
    DriverOf(cl, s, r, a);
    forall q: nat | q < cl.Size()
      ensures RankJoined(cl, s', c, q)
      ensures q != r ==> RankView(s', c, q) == RankView(s, c, q)
    {
      if q != r {
        OtherOfStream(cl, s, r, a, q);
        OtherJoined(cl, s, s', c, q);
      }
    }
    assert View(s', c).ranks == Rccl.Do(c, modes, View(s, c), r, a).ranks;
  }

  /** The driver's part of a host or device step. */
  lemma DriverOf(cl: Cluster, s: State, r: nat, a: Rccl.Action)
    requires Spmd.Inv(cl.cfg, s.w) && Enabled(cl, s, r, Stream(a)) && (a.Host? ==> InExchange(cl.cfg, s.w.ranks[r], s.net.ranks[r].k))
    ensures var s' := Do(cl, s, r, Stream(a));
            Shaped(cl, s') && Spmd.Inv(cl.cfg, s'.w) && s'.w.results == s.w.results && s'.w.contributions == s.w.contributions
  {
    hide Spmd.Inv, Rccl.Enabled, Rccl.Do, Move, Request;
    if Returns(cl.cfg, s.w.ranks[r], s.net.ranks[r], a) {
      ExchangePoint(cl.cfg, s.w.ranks[r].ctl);
      SpmdKeeps(cl.cfg, s.w, r, Spmd.Local);
    }
  }

  lemma OtherOfStream(cl: Cluster, s: State, r: nat, a: Rccl.Action, q: nat)
    requires Enabled(cl, s, r, Stream(a)) && q < cl.Size() && q != r
    ensures var s' := Do(cl, s, r, Stream(a)); s'.w.ranks[q] == s.w.ranks[q] && s'.net.ranks[q] == s.net.ranks[q]
  {
    hide Rccl.HostStep, Rccl.Sending, Rccl.Receiving, Rccl.Popping, Move, Request, Outgoing;
  }

  // ----- steps of the driver

  /** A step of one rank's driver that leaves the protocol as it is. */
  lemma DriveView(cl: Cluster, s: State, c: Case, s': State, r: nat)
    requires Joined(cl, s, c) && Shaped(cl, s') && Spmd.Inv(cl.cfg, s'.w) && r < cl.Size()
    requires s'.w.results == s.w.results && s'.net.chans == s.net.chans && RankJoined(cl, s', c, r)
    requires RankView(s', c, r) == RankView(s, c, r)
    requires forall q: nat | q < cl.Size() && q != r ::
               s'.w.ranks[q] == s.w.ranks[q] && s'.net.ranks[q] == s.net.ranks[q] && s'.w.contributions[q] == s.w.contributions[q]
    ensures Joined(cl, s', c)
  {
    hide Spmd.Inv, Wires.Inv, Due, Epoch, HaloAt, InExchange, RankJoined, Behind, RankView;
    forall q: nat | q < cl.Size()
      ensures RankJoined(cl, s', c, q) && RankView(s', c, q) == RankView(s, c, q)
    {
      if q != r {
        OtherJoined(cl, s, s', c, q);
      }
    }
    assert View(s', c).ranks == View(s, c).ranks;
  }

  /** What a local, entering or returning step changes. */
  lemma DriveStep(cl: Cluster, s: State, r: nat, a: Spmd.Action)
    requires Spmd.Inv(cl.cfg, s.w) && Enabled(cl, s, r, Drive(a)) && !a.Resolve?
    ensures var s' := Do(cl, s, r, Drive(a)); var p, p' := s.w.ranks[r], s'.w.ranks[r];
            && Shaped(cl, s') && Spmd.Inv(cl.cfg, s'.w) && s'.w.results == s.w.results && s'.net.chans == s.net.chans
            && (forall q: nat | q < cl.Size() && q != r ::
                  s'.w.ranks[q] == s.w.ranks[q] && s'.net.ranks[q] == s.net.ranks[q] && s'.w.contributions[q] == s.w.contributions[q])
            && (a.Local? ==> p' == p.(ctl := p'.ctl, calls := p'.calls) && p'.ctl == Move(cl.cfg, p.ctl, []) && !p.entered
                             && !Collective(Request(cl.cfg, p.ctl)) && !Terminal(p.ctl))
            && (a.Enter? ==> p' == p.(entered := true, calls := p'.calls) && s'.w.contributions[r] == a.x && !p.entered
                             && Collective(Request(cl.cfg, p.ctl)) && p.left == |s.w.results| && s'.net == s.net && !Terminal(p.ctl))
            && (a.Leave? ==> p.entered && p.left < |s.w.results| && !p'.entered && p'.left == p.left + 1
                             && p'.ctl == Move(cl.cfg, p.ctl, s.w.results[p.left]))
  {
    hide Spmd.Inv, Move, Request, Contributes, Allocated, Filled, HaloAt, Accepts;
    SpmdKeeps(cl.cfg, s.w, r, a);
  }

  lemma SetupKeeps(cl: Cluster, s: State, c: Case, r: nat)
    requires Joined(cl, s, c) && Enabled(cl, s, r, Drive(Spmd.Local))
    ensures Joined(cl, Do(cl, s, r, Drive(Spmd.Local)), c)
  {
    hide Spmd.Inv, Wires.Inv, Spmd.Enabled, Spmd.Do, Allocated, Filled, HaloAt, Epoch;
    var s', p := Do(cl, s, r, Drive(Spmd.Local)), s.w.ranks[r];
    DriveStep(cl, s, r, Spmd.Local);
    LocalCalls(cl.cfg, s.w, r);
    assert p.ctl.BeginHalo?;
    Driven(cl, s, c, r);
    LocalMove(cl.cfg, p.ctl);
    assert RankJoined(cl, s, c, r);
    DriveView(cl, s, c, s', r);
  }

  lemma LeaveKeeps(cl: Cluster, s: State, c: Case, r: nat)
    requires Joined(cl, s, c) && Enabled(cl, s, r, Drive(Spmd.Leave))
    ensures Joined(cl, Do(cl, s, r, Drive(Spmd.Leave)), c)
  {
    hide Spmd.Inv, Wires.Inv, Spmd.Enabled, Spmd.Do, Allocated, Filled, HaloAt, Epoch, Move;
    var s', p := Do(cl, s, r, Drive(Spmd.Leave)), s.w.ranks[r];
    DriveStep(cl, s, r, Spmd.Leave);
    Driven(cl, s, c, r);
    assert RankJoined(cl, s, c, r);
    DriveView(cl, s, c, s', r);
  }

  /** Validation follows a collective call directly. */
  lemma {:induction false} ValidatingFrom(cfg: Config, c: Ctl)
    requires Wait(cfg, c).Validating? || Wait(cfg, c).Rejected?
    ensures c == Wait(cfg, c)
  {
    if !Terminal(c) && !Collective(Request(cfg, c)) {
      LocalMove(cfg, c);
      var d := Move(cfg, c, []);
      assert Wait(cfg, c) == Wait(cfg, d);
      LocalNotValidating(cfg, d);
    }
  }

  lemma {:induction false} LocalNotValidating(cfg: Config, c: Ctl)
    requires !Terminal(c) && !c.Validating?
    ensures !Wait(cfg, c).Validating? && !Terminal(Wait(cfg, c))
    decreases LocalLeft(cfg, c)
  {
    if !Collective(Request(cfg, c)) {
      LocalMove(cfg, c);
      LocalNotValidating(cfg, Move(cfg, c, []));
    }
  }

  /** After its exchange of patterns a rank finds what it expects. */
  lemma VerdictRight(cl: Cluster, s: State, c: Case, r: nat)
    requires Joined(cl, s, c) && r < cl.Size() && s.w.ranks[r].ctl.Validating? && s.w.ranks[r].left == |s.w.results|
    requires !s.w.ranks[r].entered && s.net.ranks[r].k == 1
    ensures Accepts(cl, r, HaloAt(cl.cfg, s.w.ranks[r].ctl), s.net.ranks[r].bufs)
  {
    hide Spmd.Inv, Wires.SentFirst, Wires.WireAt, Rccl.RankOk, Coming, HaloAt, Epoch, Wait, Halo.After,
         Validation.Matches, Validation.PatternedAt, Due;
    var p, q, modes := s.w.ranks[r], s.net.ranks[r], cl.modes(|s.w.results|);
    assert RankJoined(cl, s, c, r);
    assert Exchanges.Between(q);
    assert Wires.RankAt(c, modes, Due(cl.cfg, s.w.results), View(s, c), r);
    Exchanges.BetweenExchanges(c, modes, Due(cl.cfg, s.w.results), r, q);
    Driven(cl, s, c, r);
    Current(cl, s, c, r);
    WaitSelf(cl.cfg, p.ctl);
    ValidatingFrom(cl.cfg, Epoch(cl.cfg, s.w.results));
    Validation.CorrectAccepted(cl.grid, c, r);
  }

  lemma WaitSelf(cfg: Config, c: Ctl)
    requires Collective(Request(cfg, c))
    ensures Wait(cfg, c) == c
  {
  }

  lemma EnterKeeps(cl: Cluster, s: State, c: Case, r: nat, x: seq<real>)
    requires Joined(cl, s, c) && Enabled(cl, s, r, Drive(Spmd.Enter(x)))
    ensures Joined(cl, Do(cl, s, r, Drive(Spmd.Enter(x))), c)
  {
    hide Spmd.Inv, Wires.Inv, Spmd.Enabled, Spmd.Do, Coming, HaloAt, Epoch, Move, Wait, Accepts, Due;
    var s', p := Do(cl, s, r, Drive(Spmd.Enter(x))), s.w.ranks[r];
    DriveStep(cl, s, r, Spmd.Enter(x));
    Driven(cl, s, c, r);
    assert RankJoined(cl, s, c, r);
    if p.ctl.Validating? {
      VerdictRight(cl, s, c, r);
    }
    assert Coming(cl, s', r) == Coming(cl, s, r) by { SameComing(cl, s, s', r); }
    DriveView(cl, s, c, s', r);
  }

  lemma SameComing(cl: Cluster, s: State, s': State, r: nat)
    requires r < |s.w.ranks| == |s.net.ranks| == |s'.w.ranks| == |s'.net.ranks| && s'.net.ranks[r] == s.net.ranks[r]
    requires s'.w.ranks[r].ctl == s.w.ranks[r].ctl && s'.w.ranks[r].left == s.w.ranks[r].left && s'.w.results == s.w.results
    ensures Coming(cl, s', r) == Coming(cl, s, r)
  {
  }

  // ----- the completion of a collective call

  /** The rank has made all its exchanges, and nothing of them is left on it. */
  ghost predicate Settled(cl: Cluster, s: State, c: Case, r: nat)
    requires r < |s.w.ranks| == |s.net.ranks|
  {
    var p, q := s.w.ranks[r], s.net.ranks[r];
    && p.left == |s.w.results| && !Behind(s, r) && q.k == Due(cl.cfg, s.w.results)
    && Exchanges.Between(q) && q.stream == [] && q.bufs.Sized(c.n)
  }

  lemma Settles(cl: Cluster, s: State, c: Case, r: nat)
    requires Joined(cl, s, c) && r < cl.Size() && s.w.ranks[r].left == |s.w.results|
    requires s.w.ranks[r].entered || Terminal(s.w.ranks[r].ctl)
    ensures Settled(cl, s, c, r)
  {
    hide Spmd.Inv, Wires.SentFirst, Wires.WireAt, Coming, HaloAt, Epoch, Wait, Due, Rccl.HostOk, Rccl.Expected, Halo.After;
    var p, q, modes, due := s.w.ranks[r], s.net.ranks[r], cl.modes(|s.w.results|), Due(cl.cfg, s.w.results);
    assert RankJoined(cl, s, c, r);
    Driven(cl, s, c, r);
    if !p.entered {
      TerminalTodo(cl.cfg, p.ctl);
    }
    assert !Behind(s, r) && Exchanges.Between(q);
    assert Wires.RankAt(c, modes, due, View(s, c), r);
    Exchanges.BetweenExchanges(c, modes, due, r, q);
  }

  lemma TerminalTodo(cfg: Config, c: Ctl)
    requires Terminal(c)
    ensures Todo(cfg, c) == 0 && !Request(cfg, c).Exchange? && !c.Validating? && !c.BeginHalo?
  {
  }

  /** Once all ranks have settled no message is on its way. */
  lemma Drained(cl: Cluster, s: State, c: Case)
    requires Joined(cl, s, c) && forall r: nat | r < cl.Size() :: Settled(cl, s, c, r)
    ensures View(s, c) == s.net && forall a: nat, b: nat :: s.net.Queue(a, b) == []
  {
    hide Spmd.Inv, RankJoined, Epoch, Due, Behind, Wires.RankAt, Wires.SentFirst, Wires.Wire;
    var modes, due := cl.modes(|s.w.results|), Due(cl.cfg, s.w.results);
    assert View(s, c).ranks == s.net.ranks by {
      forall r: nat | r < cl.Size()
        ensures View(s, c).ranks[r] == s.net.ranks[r]
      {
        assert Settled(cl, s, c, r);
      }
    }
    forall a: nat, b: nat
      ensures s.net.Queue(a, b) == []
    {
      assert Wires.WireAt(c, modes, due, View(s, c), a, b);
      if a < cl.Size() && b < cl.Size() {
        assert Settled(cl, s, c, b);
        Exchanges.AllReceived(c, modes, due, s.net, a, b);
      }
    }
  }

  lemma FreshInv(c: Case, modes: Rccl.Modes, goal: nat, v: Rccl.System)
    requires v.ranks == Rccl.Start(c).ranks && forall a: nat, b: nat :: v.Queue(a, b) == []
    ensures Wires.Inv(c, modes, goal, v)
  {
    hide Wires.Wire, Rccl.RankOk;
    var s := Rccl.Start(c);
    Exchanges.StartInv(c, modes, goal);
    forall r: nat | r < c.l.size
      ensures Wires.RankAt(c, modes, goal, v, r)
    {
      assert Wires.RankAt(c, modes, goal, s, r);
    }
    if c.n > 0 {
      forall b: nat, j: nat | b < c.l.size
        ensures Wires.SentFirst(c, modes, v, b, j)
      {
        assert Wires.SentFirst(c, modes, s, b, j);
      }
    }
    forall a: nat, b: nat
      ensures Wires.WireAt(c, modes, goal, v, a, b)
    {
      assert Wires.WireAt(c, modes, goal, s, a, b);
      assert s.Queue(a, b) == [];
    }
  }

  /** What all ranks will hold at their first exchange of the segment. */
  ghost function NextCase(cl: Cluster, s: State, n: nat): (c: Case)
    requires |s.w.ranks| == |s.net.ranks| == cl.Size()
    requires forall r: nat | r < cl.Size() :: Coming(cl, s, r).Sized(n)
    ensures c.l == cl.Wiring() && c.n == n && forall r: nat | r < cl.Size() :: c.init[r] == Coming(cl, s, r)
  {
    Setting(cl.Wiring(), n, seq(cl.Size(), r requires 0 <= r < cl.Size() => Coming(cl, s, r)))
  }

  /** A new segment that no rank has come to. */
  lemma NewSegment(cl: Cluster, s: State, n: nat) returns (c: Case)
    requires Shaped(cl, s) && Spmd.Inv(cl.cfg, s.w)
    requires forall r: nat | r < cl.Size() :: Behind(s, r) && Coming(cl, s, r).Sized(n)
    requires forall r: nat | r < cl.Size() ::
               s.net.ranks[r].stream == [] && !InExchange(cl.cfg, s.w.ranks[r], s.net.ranks[r].k)
               && (s.w.ranks[r].left < |s.w.results| || !s.w.ranks[r].ctl.Validating?)
    requires forall a: nat, b: nat :: s.net.Queue(a, b) == []
    requires var e := Epoch(cl.cfg, s.w.results);
             && (!Terminal(e) ==> n == HaloAt(cl.cfg, e)) && !e.Rejected?
             && (e.Validating? ==> forall r: nat | r < cl.Size() :: Coming(cl, s, r).hoew == Validation.Pattern(r, n))
             && (Numbering(cl.cfg, e) ==> forall r: nat | r < cl.Size() :: RankWords(Coming(cl, s, r), r))
    ensures Joined(cl, s, c)
  {
    hide Spmd.Inv, Coming, HaloAt, Epoch, InExchange, Wires.Inv, Behind, Due, Validation.Pattern, RankWords;
    c := NextCase(cl, s, n);
    var v := View(s, c);
    assert v.ranks == Rccl.Start(c).ranks;
    forall a: nat, b: nat
      ensures v.Queue(a, b) == []
    {
      assert v.Queue(a, b) == s.net.Queue(a, b);
    }
    FreshInv(c, cl.modes(|s.w.results|), Due(cl.cfg, s.w.results), v);
    forall r: nat | r < cl.Size()
      ensures RankJoined(cl, s, c, r)
    {
      assert Behind(s, r);
    }
  }

  /** When every rank's comparison was right the common verdict is right. */
  lemma VerdictPasses(call: Call, xs: seq<seq<real>>)
    requires call.Validate? && xs != [] && forall q | 0 <= q < |xs| :: xs[q] == [1.0]
    ensures First(Spmd.Combine(call, xs)) == 1.0
  {
    MinMaxOfEqual(Reduction.Column(xs, 0), 1.0);
  }

  /** Where the program goes on from the collective call that completes. */
  lemma ResolvedAt(cl: Cluster, s: State, c: Case, r: nat, q: nat)
    requires Joined(cl, s, c) && Enabled(cl, s, r, Drive(Spmd.Resolve)) && q < cl.Size()
    ensures var p, e := s.w.ranks[q], Epoch(cl.cfg, Do(cl, s, r, Drive(Spmd.Resolve)).w.results);
            && p.entered && p.left == |s.w.results| && p.ctl == Wait(cl.cfg, Epoch(cl.cfg, s.w.results))
            && !Terminal(p.ctl) && Collective(Request(cl.cfg, p.ctl)) && !e.Rejected?
            && exists reply :: e == Move(cl.cfg, p.ctl, reply)
  {
    hide Wires.Inv, Move, Wait, Coming, Request, Spmd.Combine, Epoch, HaloAt;
    var call, results := Request(cl.cfg, s.w.ranks[r].ctl), s.w.results;
    var results' := Do(cl, s, r, Drive(Spmd.Resolve)).w.results;
    assert Spmd.MatchesAt(cl.cfg, s.w, call, q);
    Driven(cl, s, c, q);
    Spmd.AllAtSamePoint(cl.cfg, s.w, q);
    var reply := Spmd.Combine(call, s.w.contributions);
    assert results' == results + [reply];
    Spmd.NextEpoch(cl.cfg, results', |results|);
    assert results'[..|results|] == results && results'[..|results| + 1] == results';
    CollectiveMove(cl.cfg, s.w.ranks[q].ctl, reply);
    if s.w.ranks[q].ctl.Validating? {
      ValidateCall(cl.cfg, s.w.ranks[q].ctl);
      forall i | 0 <= i < |s.w.contributions|
        ensures s.w.contributions[i] == [1.0]
      {
        assert Spmd.MatchesAt(cl.cfg, s.w, call, i);
        Spmd.AllAtSamePoint(cl.cfg, s.w, i);
        assert RankJoined(cl, s, c, i);
      }
      VerdictPasses(call, s.w.contributions);
    }
  }

  lemma ValidateCall(cfg: Config, c: Ctl)
    requires c.Validating?
    ensures Request(cfg, c).Validate?
  {
  }

  /** What a rank will hold after the collective call has the size the next segment asks for. */
  lemma ComingSized(cl: Cluster, s: State, c: Case, r: nat, q: nat)
    requires Joined(cl, s, c) && Enabled(cl, s, r, Drive(Spmd.Resolve)) && q < cl.Size()
    ensures var s' := Do(cl, s, r, Drive(Spmd.Resolve)); var e := Epoch(cl.cfg, s'.w.results);
            var n := if Terminal(e) then c.n else HaloAt(cl.cfg, e);
            && Settled(cl, s, c, q) && s'.net == s.net && s'.w.ranks == s.w.ranks && |s'.w.results| == |s.w.results| + 1
            && Coming(cl, s', q).Sized(n) && (e.Validating? ==> Coming(cl, s', q).hoew == Validation.Pattern(q, n))
  {
    hide Spmd.Inv, Wires.Inv, Move, Wait, Request, Spmd.Combine, Epoch, Validation.Pattern, Spmd.MatchingCall;
    ResolvedAt(cl, s, c, r, q);
    Settles(cl, s, c, q);
    Current(cl, s, c, q);
    var e := Epoch(cl.cfg, Do(cl, s, r, Drive(Spmd.Resolve)).w.results);
    var p := s.w.ranks[q];
    var reply :| e == Move(cl.cfg, p.ctl, reply);
    CollectiveMove(cl.cfg, p.ctl, reply);
    FilledSized(cl.cfg, q, p.ctl, e, s.net.ranks[q].bufs, c.n);
  }

  /** When validating, the barrier of a sample follows its validation and the timed exchanges follow
      the barrier, where no exchange is made. */
  lemma NumberingFrom(cfg: Config, c: Ctl, reply: seq<TimeRank>)
    requires !Terminal(c) && Collective(Request(cfg, c)) && Numbering(cfg, Move(cfg, c, reply))
    ensures if Move(cfg, c, reply).SampleBarrier? then c.Validating? else c.SampleBarrier?
  {
    hide Kept, Iterations;
  }

  lemma {:induction false} SampleBarrierFrom(cfg: Config, c: Ctl)
    requires Wait(cfg, c).SampleBarrier?
    ensures c == Wait(cfg, c) && Todo(cfg, c) == 0
  {
    if !Terminal(c) && !Collective(Request(cfg, c)) {
      LocalMove(cfg, c);
      assert Wait(cfg, c) == Wait(cfg, Move(cfg, c, []));
      LocalNotBarrier(cfg, Move(cfg, c, []));
    }
  }

  lemma {:induction false} LocalNotBarrier(cfg: Config, c: Ctl)
    requires !Terminal(c) && !c.SampleBarrier?
    ensures !Wait(cfg, c).SampleBarrier?
    decreases LocalLeft(cfg, c)
  {
    if !Collective(Request(cfg, c)) {
      LocalMove(cfg, c);
      LocalNotBarrier(cfg, Move(cfg, c, []));
    }
  }

  /** What a rank holds before the timed exchanges of a validated sample. */
  lemma ComingNumbered(cl: Cluster, s: State, c: Case, r: nat, q: nat)
    requires Joined(cl, s, c) && Enabled(cl, s, r, Drive(Spmd.Resolve)) && q < cl.Size()
    ensures var s' := Do(cl, s, r, Drive(Spmd.Resolve));
            Numbering(cl.cfg, Epoch(cl.cfg, s'.w.results)) ==> RankWords(Coming(cl, s', q), q)
  {
    hide Spmd.Inv, Wires.Inv, Move, Wait, Request, Spmd.Combine, Epoch, Spmd.MatchingCall, HaloAt;
    var s' := Do(cl, s, r, Drive(Spmd.Resolve));
    var p, e := s.w.ranks[q], Epoch(cl.cfg, s'.w.results);
    ResolvedAt(cl, s, c, r, q);
    Settles(cl, s, c, q);
    if Numbering(cl.cfg, e) {
      var reply :| e == Move(cl.cfg, p.ctl, reply);
      NumberingFrom(cl.cfg, p.ctl, reply);
      if e.Timing? {
        SampleBarrierFrom(cl.cfg, Epoch(cl.cfg, s.w.results));
        Unmoved(cl, s, c, q);
      }
    }
  }

  /** Before its first exchange of a segment a rank holds what it came with. */
  lemma Unmoved(cl: Cluster, s: State, c: Case, q: nat)
    requires Joined(cl, s, c) && q < cl.Size() && Settled(cl, s, c, q) && Due(cl.cfg, s.w.results) == 0
    ensures s.net.ranks[q].bufs == c.init[q]
  {
    hide Spmd.Inv, Wires.SentFirst, Wires.WireAt, Rccl.RankOk, Epoch, Behind;
    var modes := cl.modes(|s.w.results|);
    assert Wires.RankAt(c, modes, Due(cl.cfg, s.w.results), View(s, c), q);
    Exchanges.BetweenExchanges(c, modes, Due(cl.cfg, s.w.results), q, s.net.ranks[q]);
  }

  lemma FilledSized(cfg: Config, r: nat, before: Ctl, after: Ctl, b: Buffers, n: nat)
    requires b.Sized(n) && (!Terminal(after) && !after.BeginHalo? ==> n == HaloAt(cfg, after))
    ensures Filled(cfg, r, before, after, b).Sized(n)
    ensures after.Validating? ==> Filled(cfg, r, before, after, b).hoew == Validation.Pattern(r, n)
  {
  }

  lemma ResolveKeeps(cl: Cluster, s: State, c: Case, r: nat) returns (c': Case)
    requires Joined(cl, s, c) && Enabled(cl, s, r, Drive(Spmd.Resolve))
    ensures Joined(cl, Do(cl, s, r, Drive(Spmd.Resolve)), c')
  {
    hide Spmd.Inv, Wires.Inv, Move, Wait, Request, Spmd.Combine, Epoch, Validation.Pattern, Spmd.Enabled, Spmd.Do, HaloAt, Coming, Terminal,
         RankWords, Numbering;
    var s' := Do(cl, s, r, Drive(Spmd.Resolve));
    var e := Epoch(cl.cfg, s'.w.results);
    SpmdKeeps(cl.cfg, s.w, r, Spmd.Resolve);
    var n := if Terminal(e) then c.n else HaloAt(cl.cfg, e);
    forall q: nat | q < cl.Size()
      ensures Settled(cl, s, c, q) && Behind(s', q) && Coming(cl, s', q).Sized(n) && s'.w.ranks[q] == s.w.ranks[q]
      ensures s'.w.ranks[q].left < |s'.w.results| && s'.w.ranks[q].entered
      ensures e.Validating? ==> Coming(cl, s', q).hoew == Validation.Pattern(q, n)
      ensures Numbering(cl.cfg, e) ==> RankWords(Coming(cl, s', q), q)
    {
      ComingNumbered(cl, s, c, r, q);
      ComingSized(cl, s, c, r, q);
      ResolvedAt(cl, s, c, r, q);
    }
    ResolvedAt(cl, s, c, r, r);
    ComingSized(cl, s, c, r, r);
    Drained(cl, s, c);
    c' := NewSegment(cl, s', n);
  }

  // ----- the main results

  lemma DoKeeps(cl: Cluster, s: State, c: Case, r: nat, act: Action) returns (c': Case)
    requires Joined(cl, s, c) && Enabled(cl, s, r, act)
    ensures Joined(cl, Do(cl, s, r, act), c')
  {
    hide Joined, Enabled, Do;
    c' := c;
    match act {
      case Stream(a) => StreamKeeps(cl, s, c, r, a);
      case Drive(a) =>
        match a {
          case Local => SetupKeeps(cl, s, c, r);
          case Enter(x) => EnterKeeps(cl, s, c, r, x);
          case Leave => LeaveKeeps(cl, s, c, r);
          case Resolve => c' := ResolveKeeps(cl, s, c, r);
        }
    }
  }

  lemma StartJoined(cl: Cluster) returns (c: Case)
    requires ValidConfig(cl.cfg)
    ensures Joined(cl, Start(cl), c)
  {
    hide Spmd.Inv, Wires.Inv, Validation.Pattern;
    var s := Start(cl);
    Spmd.StartInv(cl.cfg, cl.Size());
    assert Epoch(cl.cfg, []) == NextHalo(cl.cfg, 0);
    if |cl.cfg.halos| > 0 {
      c := NewSegment(cl, s, cl.cfg.halos[0]);
    } else {
      c := NextCase(cl, s, 0);
      assert View(s, c).ranks == Rccl.Start(c).ranks;
      FreshInv(c, cl.modes(0), 0, View(s, c));
    }
  }

  /** Whatever the interleaving, modes and memory: between two collective calls the exchanges are a
      run of the protocol from what the ranks hold when they come to them, and the driver stays
      aligned. */
  lemma {:induction false} RunsAreSafe(cl: Cluster, run: seq<State>) returns (c: Case)
    requires ValidConfig(cl.cfg) && IsRun(cl, run)
    ensures Joined(cl, run[|run| - 1], c)
  {
    hide Joined, Enabled, Do;
    var m := |run| - 1;
    if m == 0 {
      c := StartJoined(cl);
    } else {
      c := RunsAreSafe(cl, run[..m]);
      assert Step(cl, run[m - 1], run[m]);
      var r: nat, act :| Enabled(cl, run[m - 1], r, act) && run[m] == Do(cl, run[m - 1], r, act);
      c := DoKeeps(cl, run[m - 1], c, r, act);
    }
  }

  /** Validation never fails: whatever happened before, on every rank of every grid and in every
      mode the pattern of every halo length and sample arrives as expected. */
  lemma NeverRejected(cl: Cluster, run: seq<State>, r: nat)
    requires ValidConfig(cl.cfg) && IsRun(cl, run) && r < cl.Size()
    ensures Shaped(cl, run[|run| - 1]) && !run[|run| - 1].w.ranks[r].ctl.Rejected?
  {
    hide Spmd.Inv, Wires.Inv, Epoch, Wait, RankJoined;
    var s := run[|run| - 1];
    var c := RunsAreSafe(cl, run);
    Driven(cl, s, c, r);
    if s.w.ranks[r].ctl.Rejected? {
      WaitRejected(cl.cfg, s.w.ranks[r].ctl);
      ValidatingFrom(cl.cfg, Epoch(cl.cfg, s.w.results));
    }
  }

  lemma WaitRejected(cfg: Config, c: Ctl)
    requires c.Rejected?
    ensures Wait(cfg, c) == c && !Collective(Request(cfg, c))
  {
  }

  /** Only the timed exchanges of a sample lead to its reductions. */
  lemma {:induction false} TimingFrom(cfg: Config, c: Ctl)
    requires (Wait(cfg, c).ReduceIterations? || Wait(cfg, c).ReduceTotal?) && Todo(cfg, c) > 0
    ensures c.Timing?
    decreases LocalLeft(cfg, c)
  {
    if !Terminal(c) && !Collective(Request(cfg, c)) && !c.Timing? {
      LocalMove(cfg, c);
      NotToTiming(cfg, c);
    }
  }

  lemma {:induction false} NotToTiming(cfg: Config, c: Ctl)
    requires !Terminal(c) && !Collective(Request(cfg, c)) && !c.Timing?
    ensures !Wait(cfg, c).ReduceIterations? && !Wait(cfg, c).ReduceTotal?
    decreases LocalLeft(cfg, c)
  {
    var d := Move(cfg, c, []);
    assert Wait(cfg, c) == Wait(cfg, d);
    if !Collective(Request(cfg, d)) {
      NotToTiming(cfg, d);
    }
  }

  lemma TimingLeads(cfg: Config, c: Ctl)
    requires c.Timing?
    ensures (Wait(cfg, c).ReduceIterations? || Wait(cfg, c).ReduceTotal?) && Todo(cfg, c) > 0
    ensures !Terminal(c) && !c.Validating? && !c.BeginHalo? && !Collective(Request(cfg, c))
    decreases LocalLeft(cfg, c)
  {
    if Move(cfg, c, []).Timing? {
      TimingLeads(cfg, Move(cfg, c, []));
    }
  }

  /** In any run that validates: k exchanges into the timed exchanges of a sample each word of a
      rank's hoew is the number of the rank ((r + k) mod rows, (c + k) mod cols) or
      ((r - k) mod rows, (c - k) mod cols), in every mode. */
  lemma TimedWords(cl: Cluster, run: seq<State>, r: nat, i: nat)
    requires ValidConfig(cl.cfg) && IsRun(cl, run) && cl.cfg.validating && Shaped(cl, run[|run| - 1]) && r < cl.Size()
    requires var s := run[|run| - 1]; var p, q := s.w.ranks[r], s.net.ranks[r];
             p.ctl.Timing? && Exchanges.Between(q) && i < 3 * HaloAt(cl.cfg, p.ctl)
    ensures cl.grid.rows > 0 && cl.grid.cols > 0
    ensures var s, g := run[|run| - 1], cl.grid; var q, n := s.net.ranks[r], HaloAt(cl.cfg, s.w.ranks[r].ctl);
            var step := if i < n then q.k as int else -(q.k as int);
            var row, col := (g.Row(r) as int + step) % g.rows, (g.Col(r) as int + step) % g.cols;
            |q.bufs.hoew| == 3 * n && row < g.rows && col < g.cols && q.bufs.hoew[i] == g.Rank(row, col)
  {
    hide Spmd.Inv, Wires.SentFirst, Wires.WireAt, Rccl.RankOk, Epoch, HaloAt, Move, Wait, Todo, Request, Halo.After, Grid.Row, Grid.Col,
         Grid.Rank, Coming, RankWords;
    var s := run[|run| - 1];
    var c := RunsAreSafe(cl, run);
    var p, q, modes, e := s.w.ranks[r], s.net.ranks[r], cl.modes(|s.w.results|), Epoch(cl.cfg, s.w.results);
    TimingLeads(cl.cfg, p.ctl);
    Driven(cl, s, c, r);
    Current(cl, s, c, r);
    assert RankJoined(cl, s, c, r);
    assert !Behind(s, r);
    TimingFrom(cl.cfg, e);
    assert Wires.RankAt(c, modes, Due(cl.cfg, s.w.results), View(s, c), r);
    Exchanges.BetweenExchanges(c, modes, Due(cl.cfg, s.w.results), r, q);
    RankNumbers(cl.grid, c, q.k, r, i);
  }

  /** The rank stands behind the same collective call as the other, past its setup, and uses the
      same halo length. */
  ghost predicate Together(cl: Cluster, s: State, q: nat, a: nat)
    requires q < |s.w.ranks| && a < |s.w.ranks|
  {
    && s.w.ranks[q].left == s.w.ranks[a].left && !Behind(s, q) && !Behind(s, a)
    && HaloAt(cl.cfg, s.w.ranks[q].ctl) == HaloAt(cl.cfg, s.w.ranks[a].ctl)
  }

  lemma BothInside(cl: Cluster, s: State, c: Case, q: nat, a: nat)
    requires Joined(cl, s, c) && q < cl.Size() && a < cl.Size() && InExchange(cl.cfg, s.w.ranks[q], s.net.ranks[q].k)
    requires !Behind(s, a) && !Terminal(s.w.ranks[a].ctl)
    ensures Together(cl, s, q, a)
  {
    hide Spmd.Inv, Wires.Inv, Epoch, Wait, RankJoined, HaloAt, InExchange;
    Inside(cl, s, c, q);
    Driven(cl, s, c, a);
    Current(cl, s, c, a);
  }

  /** Nothing is sent before a rank has come to the exchanges of the segment. */
  lemma SenderCame(cl: Cluster, s: State, c: Case, a: nat, j: nat)
    requires Joined(cl, s, c) && a < cl.Size()
    requires Wires.Sent(Wires.Reach(cl.modes(|s.w.results|), a, View(s, c).ranks[a]), j)
    requires j < 4 * Due(cl.cfg, s.w.results)
    ensures !Behind(s, a) && !Terminal(s.w.ranks[a].ctl)
  {
    hide Spmd.Inv, Wires.Inv, RankJoined, HaloAt, Wait, Epoch;
    if !Behind(s, a) {
      var e := Epoch(cl.cfg, s.w.results);
      Driven(cl, s, c, a);
      if Terminal(e) {
        TerminalTodo(cl.cfg, e);
      } else {
        WaitHalo(cl.cfg, e);
        if Terminal(s.w.ranks[a].ctl) {
          TerminalWait(cl.cfg, s.w.ranks[a].ctl);
        }
      }
    }
  }

  lemma TerminalWait(cfg: Config, c: Ctl)
    requires Terminal(c)
    ensures Wait(cfg, c) == c
  {
  }

  /** Untagged messages of two halo lengths, samples or validations never meet: whatever is on its
      way is a segment of the sender's halo length, and every rank that is inside an exchange has
      returned from the same collective calls and uses the same halo length. */
  lemma HalosSeparate(cl: Cluster, run: seq<State>, a: nat, b: nat, i: nat)
    requires ValidConfig(cl.cfg) && IsRun(cl, run) && i < |run[|run| - 1].net.Queue(a, b)|
    ensures var s := run[|run| - 1];
            && Shaped(cl, s) && a < cl.Size() && b < cl.Size()
            && (|s.net.Queue(a, b)[i]| == HaloAt(cl.cfg, s.w.ranks[a].ctl) || |s.net.Queue(a, b)[i]| == 2 * HaloAt(cl.cfg, s.w.ranks[a].ctl))
            && forall q: nat | q < cl.Size() && InExchange(cl.cfg, s.w.ranks[q], s.net.ranks[q].k) :: Together(cl, s, q, a)
  {
    hide Spmd.Inv, RankJoined, HaloAt, Epoch, InExchange, Together, Due, Wires.RankAt, Wires.SentFirst, Halo.After, Behind;
    var s := run[|run| - 1];
    var c := RunsAreSafe(cl, run);
    var v, modes, due := View(s, c), cl.modes(|s.w.results|), Due(cl.cfg, s.w.results);
    assert v.Queue(a, b) == s.net.Queue(a, b);
    assert Wires.WireAt(c, modes, due, v, a, b);
    var ga, gb := Wires.Reach(modes, a, v.ranks[a]), Wires.Reach(modes, b, v.ranks[b]);
    var j := Backlog.Contains(Wires.PendingFrom(c, ga, gb, a, b), Wires.MessagesOf(c, a), 4 * due, i);
    SenderCame(cl, s, c, a, j);
    InSegment(cl, s, c, a);
    forall q: nat | q < cl.Size() && InExchange(cl.cfg, s.w.ranks[q], s.net.ranks[q].k)
      ensures Together(cl, s, q, a)
    {
      BothInside(cl, s, c, q, a);
    }
  }

  lemma InSegment(cl: Cluster, s: State, c: Case, a: nat)
    requires Joined(cl, s, c) && a < cl.Size() && !Behind(s, a) && !Terminal(s.w.ranks[a].ctl)
    ensures c.n == HaloAt(cl.cfg, s.w.ranks[a].ctl)
  {
    hide Spmd.Inv, Wires.Inv, RankJoined, HaloAt, Epoch;
    Driven(cl, s, c, a);
    Current(cl, s, c, a);
  }

  /** A receive takes what its neighbour sent in the same stage of the same exchange, with the
      length of its own segment. */
  lemma ReceivesOwnHalo(cl: Cluster, run: seq<State>, r: nat, second: bool)
    requires ValidConfig(cl.cfg) && IsRun(cl, run) && Enabled(cl, run[|run| - 1], r, Stream(Rccl.Recv(second)))
    ensures var s := run[|run| - 1]; var d := s.net.ranks[r].stream[0];
            var j := Rccl.HalfStage(d, second); var a := Src(cl.Wiring(), Kind(j), r);
            && Together(cl, s, r, a)
            && Wires.Sent(Wires.Reach(cl.modes(s.w.ranks[a].left), a, s.net.ranks[a]), j)
            && s.net.Queue(a, r) != [] && |s.net.Queue(a, r)[0]| == SegLen(HaloAt(cl.cfg, s.w.ranks[r].ctl), Kind(j))
  {
    hide Spmd.Inv, Wires.Inv, RankJoined, HaloAt, Epoch, InExchange, Due, Halo.After, Behind, Together, Wires.Wire, Wires.Sent, Wires.Got;
    var s := run[|run| - 1];
    var c := RunsAreSafe(cl, run);
    var v, modes, due := View(s, c), cl.modes(|s.w.results|), Due(cl.cfg, s.w.results);
    var q := s.net.ranks[r];
    var j := Rccl.HalfStage(q.stream[0], second);
    var a := Src(cl.Wiring(), Kind(j), r);
    StreamView(cl, s, c, r, Rccl.Recv(second));
    Wires.RecvHead(c, modes, due, v, r, second);
    Wires.RecvWire(c, modes, due, v, r, second, Rccl.Receiving(c.n, q, second, v.Queue(a, r)[0]));
    assert v.Queue(a, r) == s.net.Queue(a, r);
    SenderCame(cl, s, c, a, j);
    assert v.ranks[a] == s.net.ranks[a];
    BothInside(cl, s, c, r, a);
    Inside(cl, s, c, r);
    assert s.w.ranks[a].left == |s.w.results| by { Driven(cl, s, c, a); NotBehind(s, a); }
  }

  lemma NotBehind(s: State, a: nat)
    requires a < |s.w.ranks| && !Behind(s, a)
    ensures s.w.ranks[a].left >= |s.w.results|
  {
  }

  // ----- progress

  /** Enabled without the system buffering any message. */
  ghost predicate Unbuffered(cl: Cluster, s: State, r: nat, act: Action) {
    && Enabled(cl, s, r, act)
    && (act == Stream(Rccl.Complete) ==>
          && s.net.Queue(r, Rccl.To(Blank(cl.Wiring(), 0), r, s.net.ranks[r].stream[0], false)) == []
          && s.net.Queue(r, Rccl.To(Blank(cl.Wiring(), 0), r, s.net.ranks[r].stream[0], true)) == [])
  }

  /** The rank's driver can do nothing before the others or its own device: it waits for them, is
      done, or is inside an exchange. */
  ghost predicate Held(cl: Cluster, s: State, q: nat)
    requires q < |s.w.ranks| == |s.net.ranks|
  {
    var p := s.w.ranks[q];
    if p.entered then p.left >= |s.w.results| else InExchange(cl.cfg, p, s.net.ranks[q].k) || Terminal(p.ctl)
  }

  /** A driver that is not held can go on. */
  lemma NotHeld(cl: Cluster, s: State, c: Case, q: nat) returns (act: Action)
    requires Joined(cl, s, c) && q < cl.Size() && !Held(cl, s, q)
    ensures Unbuffered(cl, s, q, act)
  {
    hide Wires.Inv, Spmd.Combine, Accepts, Wait, Script, Segment, Coming, Filled, Due, HaloAt;
    var p := s.w.ranks[q];
    var call := Request(cl.cfg, p.ctl);
    assert Spmd.RankOk(cl.cfg, s.w, q) && RankJoined(cl, s, c, q);
    if p.entered {
      act := Drive(Spmd.Leave);
    } else if p.ctl.Validating? {
      act := Drive(Spmd.Enter([if Accepts(cl, q, HaloAt(cl.cfg, p.ctl), s.net.ranks[q].bufs) then 1.0 else 0.0]));
    } else if Collective(call) {
      act := Drive(Spmd.Enter(Spmd.AnyContribution(p.ctl, call)));
    } else {
      act := Drive(Spmd.Local);
    }
  }

  lemma HeldHere(cl: Cluster, s: State, c: Case, q: nat)
    requires Joined(cl, s, c) && q < cl.Size() && Held(cl, s, q)
    ensures !Behind(s, q)
    ensures !InExchange(cl.cfg, s.w.ranks[q], s.net.ranks[q].k) ==>
              s.net.ranks[q].k == Due(cl.cfg, s.w.results) && s.net.ranks[q].stream == []
  {
    hide Spmd.Inv, Wires.Inv, RankJoined, Wait, Epoch, HaloAt, Due, Request;
    Driven(cl, s, c, q);
    if InExchange(cl.cfg, s.w.ranks[q], s.net.ranks[q].k) {
      Inside(cl, s, c, q);
    } else {
      Settles(cl, s, c, q);
    }
  }

  /** If all drivers are held and one rank is inside an exchange, its host or device or that of
      another rank can go on. */
  lemma MidExchange(cl: Cluster, s: State, c: Case, q: nat) returns (r: nat, act: Action)
    requires Joined(cl, s, c) && q < cl.Size() && InExchange(cl.cfg, s.w.ranks[q], s.net.ranks[q].k)
    requires forall r: nat | r < cl.Size() :: Held(cl, s, r)
    ensures Unbuffered(cl, s, r, act)
  {
    hide Spmd.Inv, Wires.Inv, RankJoined, Epoch, HaloAt, Due, Request, Held, Behind, Spmd.Enabled, InExchange;
    var modes, due := cl.modes(|s.w.results|), Due(cl.cfg, s.w.results);
    forall r: nat | r < cl.Size()
      ensures RankView(s, c, r) == s.net.ranks[r]
    {
      HeldHere(cl, s, c, r);
    }
    assert View(s, c).ranks == s.net.ranks;
    assert View(s, c) == s.net;
    Inside(cl, s, c, q);
    assert s.net.ranks[q].k != due;
    var a;
    r, a := Exchanges.DeadlockFree(c, modes, due, s.net);
    act := Stream(a);
    HeldHere(cl, s, c, r);
    if a.Host? || s.net.ranks[r].stream != [] {
      assert InExchange(cl.cfg, s.w.ranks[r], s.net.ranks[r].k);
      Inside(cl, s, c, r);
    }
  }

  lemma AllWait(cl: Cluster, s: State, c: Case) returns (r: nat, act: Action)
    requires Joined(cl, s, c) && exists q: nat :: q < cl.Size() && !Terminal(s.w.ranks[q].ctl)
    requires forall q: nat | q < cl.Size() :: Held(cl, s, q) && !InExchange(cl.cfg, s.w.ranks[q], s.net.ranks[q].k)
    ensures Unbuffered(cl, s, r, act)
  {
    hide Spmd.Inv, Wires.Inv, RankJoined, Spmd.MatchingCall, Contributes, HaloAt, Accepts, InExchange, Epoch, Request;
    var a;
    r, a := Spmd.NeverStuck(cl.cfg, s.w);
    act := Drive(a);
    assert Held(cl, s, r);
  }

  /** No deadlock: while a rank is not done some rank's driver, host or device can go on, even if
      the system buffers no message. */
  lemma DeadlockFree(cl: Cluster, s: State, c: Case) returns (r: nat, act: Action)
    requires Joined(cl, s, c) && exists q: nat :: q < cl.Size() && !Terminal(s.w.ranks[q].ctl)
    ensures Unbuffered(cl, s, r, act)
  {
    hide Spmd.Inv, Wires.Inv, RankJoined, InExchange, Held, Unbuffered, Epoch, HaloAt, Due;
    if q: nat :| q < cl.Size() && !Held(cl, s, q) {
      r := q;
      act := NotHeld(cl, s, c, q);
    } else if q: nat :| q < cl.Size() && InExchange(cl.cfg, s.w.ranks[q], s.net.ranks[q].k) {
      r, act := MidExchange(cl, s, c, q);
    } else {
      r, act := AllWait(cl, s, c);
    }
  }

  /** When all ranks are done no message is left. */
  lemma NothingLeft(cl: Cluster, run: seq<State>)
    requires ValidConfig(cl.cfg) && IsRun(cl, run)
    ensures var s := run[|run| - 1];
            Shaped(cl, s) && ((forall q: nat | q < cl.Size() :: Terminal(s.w.ranks[q].ctl)) ==> forall a: nat, b: nat :: s.net.Queue(a, b) == [])
  {
    hide Spmd.Inv, Wires.Inv, RankJoined, Epoch, HaloAt, Due;
    var s := run[|run| - 1];
    var c := RunsAreSafe(cl, run);
    if forall q: nat | q < cl.Size() :: Terminal(s.w.ranks[q].ctl) {
      forall q: nat | q < cl.Size()
        ensures Settled(cl, s, c, q)
      {
        Driven(cl, s, c, q);
        Settles(cl, s, c, q);
      }
      Drained(cl, s, c);
    }
  }
}
