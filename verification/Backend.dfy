/** One rank's RCCL backend as the driver sees it: a clock, the collectives and what they
    returned, and the phase-timing state. The ghost field ctl follows Control: every method
    may be called only where Control asks for that call, so a driver that verifies against
    this class makes exactly the calls Control prescribes. */
module Backend {
  import opened Reduction
  import opened Control
  import opened PhaseTiming

  function Plus(p: Phases, q: Phases): Phases {
    Phases(p.inputDeviceCopy + q.inputDeviceCopy, p.northSouthMpi + q.northSouthMpi,
           p.northSouthCommunication + q.northSouthCommunication, p.northSouthSync + q.northSouthSync,
           p.transposeDeviceCopy + q.transposeDeviceCopy, p.transposeCopy + q.transposeCopy,
           p.transposeCopySync + q.transposeCopySync, p.transposeSync + q.transposeSync,
           p.eastWestMpi + q.eastWestMpi, p.eastWestCommunication + q.eastWestCommunication,
           p.eastWestSync + q.eastWestSync, p.northSouthEnqueue + q.northSouthEnqueue,
           p.transposeEnqueue + q.transposeEnqueue, p.eastWestEnqueue + q.eastWestEnqueue,
           p.finalStreamSync + q.finalStreamSync)
  }

  /** The difference of two accumulators, for the fields the RCCL backend has. */
  function Since(p: Phases, start: Phases): Phases {
    NO_TIME.(northSouthCommunication := p.northSouthCommunication - start.northSouthCommunication,
             northSouthSync := p.northSouthSync - start.northSouthSync,
             transposeCopy := p.transposeCopy - start.transposeCopy,
             transposeSync := p.transposeSync - start.transposeSync,
             eastWestCommunication := p.eastWestCommunication - start.eastWestCommunication,
             eastWestSync := p.eastWestSync - start.eastWestSync,
             northSouthEnqueue := p.northSouthEnqueue - start.northSouthEnqueue,
             transposeEnqueue := p.transposeEnqueue - start.transposeEnqueue,
             eastWestEnqueue := p.eastWestEnqueue - start.eastWestEnqueue,
             finalStreamSync := p.finalStreamSync - start.finalStreamSync)
  }

  function SchemaOf(ordered: bool): Schema { if ordered then StreamOrdered else Conservative }

  /** The RCCL fields, none negative. */
  predicate Elapsed(ordered: bool, p: Phases) {
    && OnlySchema(SchemaOf(ordered), p)
    && p.northSouthCommunication >= 0.0 && p.northSouthSync >= 0.0 && p.transposeCopy >= 0.0
    && p.transposeSync >= 0.0 && p.eastWestCommunication >= 0.0 && p.eastWestSync >= 0.0
    && p.northSouthEnqueue >= 0.0 && p.transposeEnqueue >= 0.0 && p.eastWestEnqueue >= 0.0
    && p.finalStreamSync >= 0.0
  }

  /** The phases of each synchronisation mode. */
  predicate Active(ordered: bool, phase: Phase) {
    if ordered
    then phase.NorthSouthEnqueue? || phase.TransposeEnqueue? || phase.EastWestEnqueue? || phase.FinalStreamSync?
    else phase.NorthSouthCommunication? || phase.NorthSouthSync? || phase.TransposeCopy? || phase.TransposeSync?
         || phase.EastWestCommunication? || phase.EastWestSync?
  }

  function Single(phase: Phase, d: real): Phases {
    match phase
    case NorthSouthCommunication => NO_TIME.(northSouthCommunication := d)
    case NorthSouthSync => NO_TIME.(northSouthSync := d)
    case TransposeCopy => NO_TIME.(transposeCopy := d)
    case TransposeSync => NO_TIME.(transposeSync := d)
    case EastWestCommunication => NO_TIME.(eastWestCommunication := d)
    case EastWestSync => NO_TIME.(eastWestSync := d)
    case NorthSouthEnqueue => NO_TIME.(northSouthEnqueue := d)
    case TransposeEnqueue => NO_TIME.(transposeEnqueue := d)
    case EastWestEnqueue => NO_TIME.(eastWestEnqueue := d)
    case FinalStreamSync => NO_TIME.(finalStreamSync := d)
    case _ => NO_TIME
  }

  /** The accumulators the mode reports, in output order. */
  function LocalPhases(ordered: bool, p: Phases): (xs: seq<real>)
    ensures |xs| == if ordered then 4 else 6
  {
    if ordered then [p.northSouthEnqueue, p.transposeEnqueue, p.eastWestEnqueue, p.finalStreamSync]
    else [p.northSouthCommunication, p.northSouthSync, p.transposeCopy, p.transposeSync,
          p.eastWestCommunication, p.eastWestSync]
  }

  lemma LocalPhasesOfSchema(ordered: bool, p: Phases)
    ensures LocalPhases(ordered, p) == Seconds(PhaseValues(SchemaOf(ordered), p))
  {
    assert forall i | 0 <= i < |LocalPhases(ordered, p)| ::
      Seconds(PhaseValues(SchemaOf(ordered), p))[i] == LocalPhases(ordered, p)[i];
  }

  /** A record of the mode with these phases. */
  function FromPhases(ordered: bool, xs: seq<real>): (p: Phases)
    requires |xs| == if ordered then 4 else 6
    ensures LocalPhases(ordered, p) == xs && OnlySchema(SchemaOf(ordered), p)
  {
    if ordered
    then NO_TIME.(northSouthEnqueue := xs[0], transposeEnqueue := xs[1], eastWestEnqueue := xs[2], finalStreamSync := xs[3])
    else NO_TIME.(northSouthCommunication := xs[0], northSouthSync := xs[1], transposeCopy := xs[2],
                  transposeSync := xs[3], eastWestCommunication := xs[4], eastWestSync := xs[5])
  }

  /** What a rank brings to a collective call, and where in the program it makes the call. */
  datatype Brought = Brought(at: Ctl, values: seq<real>)

  /** What a rank brings to the first m reductions of its phase averages. */
  ghost function Shares(at: At, xs: seq<real>, iterations: nat, m: nat): seq<Brought>
    requires iterations > 0 && m <= |xs|
  {
    seq(m, i requires 0 <= i < m => Brought(ReduceAverage(at, i), [xs[i] / iterations as real]))
  }

  lemma SharesStep(at: At, xs: seq<real>, iterations: nat, m: nat)
    requires iterations > 0 && m < |xs|
    ensures Shares(at, xs, iterations, m + 1)
         == Shares(at, xs, iterations, m) + [Brought(ReduceAverage(at, m), [xs[m] / iterations as real])]
  {
  }

  /** What a rank that holds kept records brings to the gather. */
  function GatherBrings(at: At, kept: nat, least: real, consistent: bool): seq<Brought> {
    [Brought(CountMin(at, kept), [kept as real]), Brought(CountMax(at, kept, least), [kept as real])]
    + (if consistent && kept > 0 then [Brought(GatherRows(at, kept), [])] else [])
  }

  /** What the i-th collective returned, for that many elements. */
  function Reply(replies: (nat, nat) -> TimeRank, i: nat, count: nat): (r: seq<TimeRank>)
    ensures |r| == count
  {
    seq(count, j requires 0 <= j => replies(i, j))
  }

  /** The first elements of replies i, i + 1 and so on. */
  function Firsts(replies: (nat, nat) -> TimeRank, i: nat, m: nat): (xs: seq<real>)
    ensures |xs| == m
  {
    seq(m, p requires 0 <= p => First(Reply(replies, i + p, 1)))
  }

  /** The contributions are those of the collective calls along the run, in order, and what the
      run received are the replies to them. */
  ghost predicate Logged(cfg: Config, replies: (nat, nat) -> TimeRank, history: seq<seq<TimeRank>>, contributed: seq<Brought>) {
    if history == [] then contributed == []
    else
      var m := |history| - 1;
      var c := After(cfg, history[..m]);
      if Collective(Request(cfg, c)) then
        && contributed != []
        && var n := |contributed| - 1;
           && contributed[n].at == c && history[m] == Reply(replies, n, Elements(Request(cfg, c)))
           && Logged(cfg, replies, history[..m], contributed[..n])
      else Logged(cfg, replies, history[..m], contributed)
  }

  lemma LoggedLocal(cfg: Config, replies: (nat, nat) -> TimeRank, history: seq<seq<TimeRank>>, contributed: seq<Brought>)
    requires Logged(cfg, replies, history, contributed) && !Collective(Request(cfg, After(cfg, history)))
    ensures Logged(cfg, replies, history + [[]], contributed)
  {
    assert (history + [[]])[..|history|] == history;
  }

  lemma LoggedCollective(cfg: Config, replies: (nat, nat) -> TimeRank, history: seq<seq<TimeRank>>, contributed: seq<Brought>,
                         values: seq<real>)
    requires var c := After(cfg, history); Logged(cfg, replies, history, contributed) && Collective(Request(cfg, c))
    ensures var c := After(cfg, history);
            Logged(cfg, replies, history + [Reply(replies, |contributed|, Elements(Request(cfg, c)))],
                   contributed + [Brought(c, values)])
  {
    var reply := Reply(replies, |contributed|, Elements(Request(cfg, After(cfg, history))));
    assert (history + [reply])[..|history|] == history;
    assert (contributed + [Brought(After(cfg, history), values)])[..|contributed|] == contributed;
  }

  lemma {:induction false} LoggedLength(cfg: Config, replies: (nat, nat) -> TimeRank, history: seq<seq<TimeRank>>, contributed: seq<Brought>)
    requires Logged(cfg, replies, history, contributed)
    ensures |Returned(cfg, history)| == |Points(cfg, history)| == |contributed|
  {
    hide Move, Request, Reply, After;
    if history != [] {
      var m := |history| - 1;
      var c := After(cfg, history[..m]);
      LoggedLength(cfg, replies, history[..m],
                   if Collective(Request(cfg, c)) then contributed[..|contributed| - 1] else contributed);
    }
  }

  /** Read entry by entry. */
  lemma {:induction false} LoggedEntry(cfg: Config, replies: (nat, nat) -> TimeRank, history: seq<seq<TimeRank>>, contributed: seq<Brought>,
                                       i: nat)
    requires Logged(cfg, replies, history, contributed) && i < |contributed|
    ensures LoggedAt(cfg, replies, history, contributed, i)
  {
    hide Move, Request, Reply, After;
    var m := |history| - 1;
    var c := After(cfg, history[..m]);
    LoggedLength(cfg, replies, history, contributed);
    if !Collective(Request(cfg, c)) {
      LoggedEntry(cfg, replies, history[..m], contributed, i);
    } else if i < |contributed| - 1 {
      LoggedEntry(cfg, replies, history[..m], contributed[..|contributed| - 1], i);
      LoggedLength(cfg, replies, history[..m], contributed[..|contributed| - 1]);
    } else {
      LoggedLength(cfg, replies, history[..m], contributed[..|contributed| - 1]);
    }
  }

  ghost predicate LoggedAt(cfg: Config, replies: (nat, nat) -> TimeRank, history: seq<seq<TimeRank>>, contributed: seq<Brought>, i: nat) {
    && i < |contributed| == |Points(cfg, history)|
    && Points(cfg, history)[i] == contributed[i].at
    && Returned(cfg, history)[i] == Reply(replies, i, Elements(Request(cfg, contributed[i].at)))
  }

  /** Everything brought is what its call asks for. */
  ghost predicate AllContribute(cfg: Config, contributed: seq<Brought>) {
    forall i | 0 <= i < |contributed| :: Contributes(contributed[i].at, Request(cfg, contributed[i].at), contributed[i].values)
  }

  lemma SingleElapsed(ordered: bool, phase: Phase, d: real)
    requires Active(ordered, phase) && d >= 0.0
    ensures Elapsed(ordered, Single(phase, d)) && PhaseTimingSum(Single(phase, d)) == d
  {
  }

  lemma ElapsedPlus(ordered: bool, p: Phases, q: Phases)
    requires Elapsed(ordered, p) && Elapsed(ordered, q)
    ensures Elapsed(ordered, Plus(p, q))
    ensures PhaseTimingSum(Plus(p, q)) == PhaseTimingSum(p) + PhaseTimingSum(q)
    ensures PhaseTimingSum(p) >= 0.0
    ensures Since(Plus(p, q), p) == q
  {
  }

  lemma NoCost(ordered: bool)
    ensures Elapsed(ordered, NO_TIME) && PhaseTimingSum(NO_TIME) == 0.0
  {
  }

  lemma PlusOrder(p: Phases, q: Phases, r: Phases)
    ensures Plus(Plus(p, q), r) == Plus(p, Plus(q, r))
    ensures Plus(NO_TIME, p) == p == Plus(p, NO_TIME)
  {
  }

  function TotalOf(costs: seq<Phases>): Phases {
    if costs == [] then NO_TIME else Plus(TotalOf(costs[..|costs| - 1]), costs[|costs| - 1])
  }

  /** One exchange: where in the program it was made, whether phases were collected, what they
      took, and the clock readings it lies between. */
  datatype Exch = Exch(made: Ctl, collected: bool, cost: Phases, from: nat, to: nat)

  /** The phases of stream-ordered mode, from clock reading t on: each is the difference of its own two
      readings. */
  predicate OrderedTimes(clock: nat -> real, t: nat, cost: Phases) {
    && cost.northSouthEnqueue == clock(t + 1) - clock(t)
    && cost.transposeEnqueue == clock(t + 3) - clock(t + 2)
    && cost.eastWestEnqueue == clock(t + 5) - clock(t + 4)
    && cost.finalStreamSync == clock(t + 7) - clock(t + 6)
  }

  /** The same for conservative mode. */
  predicate ConservativeTimes(clock: nat -> real, t: nat, cost: Phases) {
    && cost.northSouthCommunication == clock(t + 1) - clock(t)
    && cost.northSouthSync == clock(t + 3) - clock(t + 2)
    && cost.transposeCopy == clock(t + 5) - clock(t + 4)
    && cost.transposeSync == clock(t + 7) - clock(t + 6)
    && cost.eastWestCommunication == clock(t + 9) - clock(t + 8)
    && cost.eastWestSync == clock(t + 11) - clock(t + 10)
  }

  /** The clock is read twice for each phase of a collected exchange and not at all otherwise. */
  predicate Intervals(ordered: bool, clock: nat -> real, e: Exch) {
    if !e.collected then e.to == e.from
    else if ordered then e.to == e.from + 8 && OrderedTimes(clock, e.from, e.cost)
    else e.to == e.from + 12 && ConservativeTimes(clock, e.from, e.cost)
  }

  lemma FourPhases(clock: nat -> real, t: nat, cost: Phases)
    requires cost == Plus(Plus(Plus(Single(NorthSouthEnqueue, clock(t + 1) - clock(t)),
                                    Single(TransposeEnqueue, clock(t + 3) - clock(t + 2))),
                               Single(EastWestEnqueue, clock(t + 5) - clock(t + 4))),
                          Single(FinalStreamSync, clock(t + 7) - clock(t + 6)))
    ensures OrderedTimes(clock, t, cost)
  {
  }

  lemma SixPhases(clock: nat -> real, t: nat, cost: Phases)
    requires cost == Plus(Plus(Plus(Plus(Plus(Single(NorthSouthCommunication, clock(t + 1) - clock(t)),
                                              Single(NorthSouthSync, clock(t + 3) - clock(t + 2))),
                                         Single(TransposeCopy, clock(t + 5) - clock(t + 4))),
                                    Single(TransposeSync, clock(t + 7) - clock(t + 6))),
                               Single(EastWestCommunication, clock(t + 9) - clock(t + 8))),
                          Single(EastWestSync, clock(t + 11) - clock(t + 10)))
    ensures ConservativeTimes(clock, t, cost)
  {
  }

  function Costs(es: seq<Exch>): (costs: seq<Phases>)
    ensures |costs| == |es|
  {
    seq(|es|, i requires 0 <= i < |es| => es[i].cost)
  }

  function TotalCost(es: seq<Exch>): Phases { TotalOf(Costs(es)) }

  ghost predicate MonotoneClock(clock: nat -> real) {
    forall i, j | 0 <= i <= j :: clock(i) <= clock(j)
  }

  class RcclBackend {
    const ordered: bool
    const validate: bool
    const supportsPhaseTiming: bool
    const clock: nat -> real
    const replies: (nat, nat) -> TimeRank
    ghost const cfg: Config
    var tick: nat
    var received: nat
    var enabled: bool
    var collecting: bool
    var acc: Phases
    var iterationStart: Phases
    ghost var ctl: Ctl
    ghost var exchanges: seq<Exch>
    ghost var contributed: seq<Brought>
    ghost var history: seq<seq<TimeRank>>

    constructor (ordered: bool, validate: bool, supportsPhaseTiming: bool, clock: nat -> real, replies: (nat, nat) -> TimeRank,
                 enabled: bool, ghost cfg: Config)
      requires MonotoneClock(clock)
      requires cfg.averages == cfg.phases == (if ordered then 4 else 6) && cfg.validating == validate
      ensures Valid() && this.cfg == cfg && this.enabled == enabled && this.ordered == ordered
      ensures this.supportsPhaseTiming == supportsPhaseTiming
      ensures ctl == NextHalo(cfg, 0) && !collecting && acc == NO_TIME
      ensures history == [] && exchanges == [] && contributed == []
    {
      this.ordered, this.validate, this.supportsPhaseTiming := ordered, validate, supportsPhaseTiming;
      this.clock, this.replies, this.cfg := clock, replies, cfg;
      this.tick, this.received, this.enabled, this.collecting := 0, 0, enabled, false;
      this.acc, this.iterationStart := NO_TIME, NO_TIME;
      this.ctl, this.history, this.exchanges, this.contributed := NextHalo(cfg, 0), [], [], [];
    }

    ghost predicate Valid()
      reads `acc, `ctl, `history, `received, `contributed
    {
      Timed() && Placed()
    }

    ghost predicate Timed()
      reads `acc
    {
      && MonotoneClock(clock) && Elapsed(ordered, acc)
      && cfg.averages == cfg.phases == (if ordered then 4 else 6) && cfg.validating == validate
    }

    /** The calls so far are those Control asks for, and what they brought and returned is known. */
    ghost predicate Placed()
      reads `ctl, `history, `received, `contributed
    {
      && Legal(cfg, history) && ctl == After(cfg, history)
      && received == |contributed| && Logged(cfg, replies, history, contributed) && AllContribute(cfg, contributed)
    }

    method Now() returns (t: real)
      modifies `tick
      ensures t == clock(old(tick)) && tick == old(tick) + 1
    {
      t := clock(tick);
      tick := tick + 1;
    }

    /** Account for a call that needs no other rank. */
    ghost method Local()
      requires Placed() && !Terminal(ctl) && !Collective(Request(cfg, ctl))
      modifies `ctl, `history
      ensures Placed() && ctl == Move(cfg, old(ctl), [])
    {
      OneMore(cfg, history, []);
      LoggedLocal(cfg, replies, history, contributed);
      history := history + [[]];
      ctl := Move(cfg, ctl, []);
    }

    /** A call that needs all ranks: this rank brings its values and gets the common reply. */
    method Receive(ghost brought: seq<real>, count: nat) returns (reply: seq<TimeRank>)
      requires Placed() && !Terminal(ctl) && Collective(Request(cfg, ctl)) && count == Elements(Request(cfg, ctl))
      requires Contributes(ctl, Request(cfg, ctl), brought)
      modifies `received, `ctl, `history, `contributed
      ensures Placed() && reply == Reply(replies, old(received), count) && received == old(received) + 1
      ensures ctl == Move(cfg, old(ctl), reply) && contributed == old(contributed) + [Brought(old(ctl), brought)]
    {
      hide Move;
      reply := Reply(replies, received, count);
      OneMore(cfg, history, reply);
      LoggedCollective(cfg, replies, history, contributed, brought);
      received := received + 1;
      history := history + [reply];
      contributed := contributed + [Brought(ctl, brought)];
      ctl := Move(cfg, ctl, reply);
    }

    method Setup(halo: nat)
      requires Placed() && Request(cfg, ctl) == Call.Setup(halo)
      modifies `ctl, `history
      ensures Placed() && ctl == Move(cfg, old(ctl), [])
    {
      Local();
    }

    method Exchange() returns (ghost e: Exch)
      requires Valid() && Request(cfg, ctl) == Call.Exchange
      modifies `tick, `acc, `ctl, `history, `exchanges
      ensures Valid() && ctl == Move(cfg, old(ctl), [])
      ensures exchanges == old(exchanges) + [e] && e.made == old(ctl) && e.collected == collecting
      ensures e.from == old(tick) && e.to == tick
      ensures Spent(old(acc), e.cost, old(tick)) && Intervals(ordered, clock, e)
    {
      hide PhaseTimingSum, Plus, Elapsed, MonotoneClock, Legal, Logged, After, Move;
      ghost var start := tick;
      ghost var cost := RunExchange();
      e := Exch(ctl, collecting, cost, start, tick);
      exchanges := exchanges + [e];
      Local();
    }

    /** The exchange took cost, all of it between the clock readings tick and now. */
    ghost predicate Spent(before: Phases, cost: Phases, tick0: nat)
      reads this
    {
      && Elapsed(ordered, cost) && acc == Plus(before, cost) && tick0 <= tick
      && (!collecting ==> cost == NO_TIME)
      && PhaseTimingSum(cost) <= clock(tick) - clock(tick0)
    }

    /** The exchange proper, in either mode; only the clock readings matter here. */
    method RunExchange() returns (ghost cost: Phases)
      requires Timed()
      modifies `tick, `acc
      ensures Timed() && Spent(old(acc), cost, old(tick))
      ensures forall made :: Intervals(ordered, clock, Exch(made, collecting, cost, old(tick), tick))
    {
      ghost var before := acc;
      hide PhaseTimingSum, Plus, Elapsed, MonotoneClock, OrderedTimes, ConservativeTimes;
      if !collecting {
        cost := NO_TIME;
        NoCost(ordered);
        PlusOrder(before, before, before);
      } else if ordered {
        cost := TimeStreamOrdered();
      } else {
        cost := TimeConservative();
      }
    }

    method TimeStreamOrdered() returns (ghost cost: Phases)
      requires Timed() && collecting && ordered
      modifies `tick, `acc
      ensures Timed() && Spent(old(acc), cost, old(tick))
      ensures tick == old(tick) + 8
      ensures OrderedTimes(clock, old(tick), cost)
    {
      hide Plus, Single, PhaseTimingSum, Elapsed, MonotoneClock, Spent, Timed, OrderedTimes, ConservativeTimes;
      ghost var t0 := tick;
      cost := TimePhase(NorthSouthEnqueue);
      cost := ThenPhase(old(acc), cost, old(tick), TransposeEnqueue);
      cost := ThenPhase(old(acc), cost, old(tick), EastWestEnqueue);
      cost := ThenPhase(old(acc), cost, old(tick), FinalStreamSync);
      FourPhases(clock, t0, cost);
    }

    method TimeConservative() returns (ghost cost: Phases)
      requires Timed() && collecting && !ordered
      modifies `tick, `acc
      ensures Timed() && Spent(old(acc), cost, old(tick))
      ensures tick == old(tick) + 12
      ensures ConservativeTimes(clock, old(tick), cost)
    {
      hide Plus, Single, PhaseTimingSum, Elapsed, MonotoneClock, Spent, Timed, OrderedTimes, ConservativeTimes;
      ghost var t0 := tick;
      cost := TimePhase(NorthSouthCommunication);
      cost := ThenPhase(old(acc), cost, old(tick), NorthSouthSync);
      cost := ThenPhase(old(acc), cost, old(tick), TransposeCopy);
      cost := ThenPhase(old(acc), cost, old(tick), TransposeSync);
      cost := ThenPhase(old(acc), cost, old(tick), EastWestCommunication);
      cost := ThenPhase(old(acc), cost, old(tick), EastWestSync);
      SixPhases(clock, t0, cost);
    }

    /** Clock readings before and after one phase; the difference goes to its accumulator. */
    method TimePhase(phase: Phase) returns (ghost cost: Phases)
      requires Timed() && collecting && Active(ordered, phase)
      modifies `tick, `acc
      ensures Timed() && Spent(old(acc), cost, old(tick))
      ensures tick == old(tick) + 2 && cost == Single(phase, clock(old(tick) + 1) - clock(old(tick)))
    {
      hide Plus, Single, Elapsed, PhaseTimingSum;
      var start := Now();
      var now := Now();
      assert MonotoneClock(clock) && now - start >= 0.0;
      cost := Single(phase, now - start);
      SingleElapsed(ordered, phase, now - start);
      ElapsedPlus(ordered, acc, cost);
      acc := Plus(acc, Single(phase, now - start));
    }

    /** One more phase on top of those timed since tick0. */
    method ThenPhase(ghost before: Phases, ghost soFar: Phases, ghost tick0: nat, phase: Phase)
      returns (ghost cost: Phases)
      requires Timed() && collecting && Active(ordered, phase) && Spent(before, soFar, tick0)
      modifies `tick, `acc
      ensures Timed() && Spent(before, cost, tick0)
      ensures tick == old(tick) + 2 && cost == Plus(soFar, Single(phase, clock(old(tick) + 1) - clock(old(tick))))
    {
      ghost var more := TimePhase(phase);
      cost := Plus(soFar, more);
      PlusOrder(before, soFar, more);
      ElapsedPlus(ordered, soFar, more);
    }

    /** Validation makes one exchange of its own and then agrees on the verdict. */
    method ValidateCurrentHalo() returns (ok: bool, ghost own: seq<Exch>)
      requires Valid() && (if validate then ctl.Validating? else ctl.SampleBarrier?)
      modifies `tick, `received, `acc, `ctl, `history, `exchanges, `contributed
      ensures Valid()
      ensures exchanges == old(exchanges) + own && |own| == (if validate then 1 else 0)
      ensures forall e | e in own :: e.made == old(ctl) && e.made.Validating? && e.collected == collecting
      ensures ctl == if ok then SampleBarrier(old(ctl).at) else Rejected
      ensures if validate
              then exists verdict :: contributed == old(contributed) + [Brought(old(ctl), [verdict])]
              else contributed == old(contributed)
      ensures validate ==> (ok <==> First(Reply(replies, old(received), 1)) == 1.0)
    {
      hide PhaseTimingSum, Plus, Elapsed, MonotoneClock, Legal, Logged, After;
      ok, own := true, [];
      if validate {
        ghost var start := tick;
        ghost var cost := RunExchange();
        own := [Exch(ctl, collecting, cost, start, tick)];
        exchanges := exchanges + own;
        ghost var local :| local == 0.0 || local == 1.0;
        var verdict := Receive([local], 1);
        ok := verdict[0].seconds == 1.0;
      }
    }

    method Barrier()
      requires Valid() && Request(cfg, ctl) == Call.Barrier
      modifies `received, `ctl, `history, `contributed
      ensures Valid() && ctl == Move(cfg, old(ctl), []) && contributed == old(contributed) + [Brought(old(ctl), [])]
    {
      var none := Receive([], 0);
      assert none == [];
    }

    method MaxTime(localSeconds: real) returns (seconds: real)
      requires Placed() && Request(cfg, ctl) == Reduce(Op.MaxTime, 1)
      modifies `received, `ctl, `history, `contributed
      ensures Placed() && contributed == old(contributed) + [Brought(old(ctl), [localSeconds])]
      ensures seconds == First(Reply(replies, old(received), 1))
      ensures ctl == Move(cfg, old(ctl), Reply(replies, old(received), 1)) && received == old(received) + 1
    {
      var reply := Receive([localSeconds], 1);
      seconds := reply[0].seconds;
    }

    method MaxTimeRanks(localSeconds: seq<real>) returns (reductions: seq<TimeRank>)
      requires Placed() && Request(cfg, ctl) == Reduce(Op.MaxTimeRanks, |localSeconds|)
      modifies `received, `ctl, `history, `contributed
      ensures Placed() && contributed == old(contributed) + [Brought(old(ctl), localSeconds)] && received == old(received) + 1
      ensures reductions == Reply(replies, old(received), |localSeconds|) && ctl == Move(cfg, old(ctl), reductions)
    {
      reductions := Receive(localSeconds, |localSeconds|);
    }

    /** The collectives of gather_stalled_rank_timings for a rank that holds count records. */
    method GatherStalledRankTimings(count: nat) returns (consistent: bool)
      requires Placed() && ctl.CountMin? && ctl.kept == count
      modifies `received, `ctl, `history, `contributed
      ensures Placed() && ctl == if consistent then ReduceTotal(old(ctl).at) else Inconsistent
      ensures var least := First(Reply(replies, old(received), 1));
              && consistent == (least == First(Reply(replies, old(received) + 1, 1)))
              && contributed == old(contributed) + GatherBrings(old(ctl).at, count, least, consistent)
    {
      hide After, Legal, Logged, MonotoneClock, Elapsed, Reply;
      var minimum := Receive([count as real], 1);
      var maximum := Receive([count as real], 1);
      consistent := minimum[0].seconds == maximum[0].seconds;
      if consistent && count > 0 {
        var _ := Receive([], 0);
      }
    }

    // ----- phase timing

    method SetPhaseTimingEnabled(enabled: bool)
      modifies `enabled, `collecting
      ensures this.enabled == enabled && collecting == (enabled && old(collecting))
    {
      this.enabled := enabled;
      if !enabled {
        collecting := false;
      }
    }

    method ResetPhaseTiming()
      requires Timed()
      modifies `acc, `collecting
      ensures Timed() && acc == NO_TIME && collecting == enabled
    {
      acc := NO_TIME;
      collecting := enabled;
    }

    method BeginIterationPhaseTiming()
      modifies `iterationStart, `collecting
      ensures iterationStart == acc && collecting
    {
      iterationStart := acc;
      collecting := true;
    }

    method EndIterationPhaseTiming(totalSeconds: real) returns (result: PhaseReport)
      modifies `collecting
      ensures collecting == (enabled && old(collecting))
      ensures result.phases == Since(acc, iterationStart) && result.total == totalSeconds
      ensures result.phaseSum == PhaseTimingSum(result.phases) && result.phaseSum + result.unattributed == totalSeconds
    {
      hide PhaseTimingSum, Since;
      if !enabled {
        collecting := false;
      }
      var phases := Since(acc, iterationStart);
      var sum := PhaseTimingSum(phases);
      result := PhaseReport(phases, sum, totalSeconds, totalSeconds - sum);
    }

    /** Reduce the local averages of the mode's phases one by one. */
    method PhaseTimingResult(iterations: nat, totalSeconds: real) returns (result: PhaseReport)
      requires Valid() && iterations > 0
      requires ctl.ReduceAverage? && ctl.phase == 0 && ctl.at.iterations == iterations
      modifies `received, `collecting, `ctl, `history, `contributed
      ensures Valid() && !collecting && ctl == NextSample(cfg, old(ctl).at)
      ensures contributed == old(contributed) + Shares(old(ctl).at, LocalPhases(ordered, acc), iterations, cfg.averages)
      ensures result.phases == FromPhases(ordered, Firsts(replies, old(received), cfg.averages)) && result.total == totalSeconds
      ensures result.phaseSum == PhaseTimingSum(result.phases) && result.phaseSum + result.unattributed == totalSeconds
    {
      hide PhaseTimingSum, FromPhases, LocalPhases, Firsts, Shares, NextSample;
      collecting := false;
      var averages := ReduceAverages(LocalPhases(ordered, acc), iterations);
      var phases := FromPhases(ordered, averages);
      var sum := PhaseTimingSum(phases);
      result := PhaseReport(phases, sum, totalSeconds, totalSeconds - sum);
    }

    method ReduceAverages(locals: seq<real>, iterations: nat) returns (averages: seq<real>)
      requires Placed() && iterations > 0 && |locals| == cfg.averages > 0
      requires ctl.ReduceAverage? && ctl.phase == 0
      modifies `received, `ctl, `history, `contributed
      ensures Placed() && ctl == NextSample(cfg, old(ctl).at) && averages == Firsts(replies, old(received), cfg.averages)
      ensures contributed == old(contributed) + Shares(old(ctl).at, locals, iterations, cfg.averages)
    {
      hide After, Legal, Logged, NextSample, Reply;
      averages := [];
      ghost var at, before, start := ctl.at, contributed, received;
      while |averages| < |locals|
        invariant |averages| <= |locals| && Placed() && received == start + |averages|
        invariant averages == Firsts(replies, start, |averages|)
        invariant contributed == before + Shares(at, locals, iterations, |averages|)
        invariant ctl == if |averages| < cfg.averages then ReduceAverage(at, |averages|) else NextSample(cfg, at)
      {
        SharesStep(at, locals, iterations, |averages|);
        var average := MaxTime(locals[|averages|] / iterations as real);
        averages := averages + [average];
      }
    }
  }
}
