/** All ranks running the benchmark on the MPI backend, where every exchange the driver asks for
    is made stage by stage. The ranks use the same tags for all halo lengths, so that a rank which
    is still at one length could take a message of the next; it is the last reduction of a halo
    length that keeps them apart. */
module MpiRuns {
  import opened Topology
  import opened Halo
  import opened Control
  import opened Setups
  import Spmd
  import Mpi = MpiExchange

  /** The driver of every rank, and their buffers and channels. */
  datatype State = State(w: Spmd.World, net: Mpi.System)

  datatype Action = Drive(call: Spmd.Action) | Stage(step: Mpi.Action)

  ghost predicate Shaped(l: Links, s: State) {
    |s.w.ranks| == |s.w.contributions| == |s.net.procs| == l.size
  }

  /** Stages and segment lengths depend on the links and the halo length only. */
  function Blank(l: Links, n: nat): Case {
    Setting(l, n, seq(l.size, _ => Prepared(Buffers([], [], [], []), n, 0)))
  }

  /** A stage belongs to the exchange the rank is in; exchange returns after four of them. */
  ghost predicate Enabled(cfg: Config, l: Links, s: State, r: nat, act: Action) {
    Shaped(l, s) && r < l.size &&
    var p := s.w.ranks[r];
    var done := ProgressOf(p.calls);
    match act
    case Drive(a) => Spmd.Enabled(cfg, s.w, r, a) && (a.Local? && AtExchange(cfg, p) ==> s.net.procs[r].pc == 4 * done.made + 4)
    case Stage(a) => AtExchange(cfg, p) && Mpi.Enabled(Blank(l, done.halo), 4 * done.made + 4, s.net, r, a)
  }

  ghost function Do(cfg: Config, l: Links, s: State, r: nat, act: Action): State
    requires Enabled(cfg, l, s, r, act)
  {
    var p := s.w.ranks[r];
    match act
    case Drive(a) =>
      var call := Request(cfg, p.ctl);
      State(Spmd.Do(cfg, s.w, r, a),
            if a.Local? && call.Setup?
            then s.net.(procs := s.net.procs[r := SetUp(s.net.procs[r], call.halo, r)])
            else s.net)
    case Stage(a) =>
      s.(net := Mpi.Do(Blank(l, ProgressOf(p.calls).halo), s.net, r, a))
  }

  /** Setup of rank r; it makes no call to another rank. */
  function SetUp(p: Mpi.Proc, n: nat, r: nat): Mpi.Proc {
    Mpi.Proc(0, false, false, false, Prepared(p.bufs, n, r))
  }

  ghost predicate Step(cfg: Config, l: Links, s: State, s': State) {
    exists r: nat, act :: Enabled(cfg, l, s, r, act) && s' == Do(cfg, l, s, r, act)
  }

  function Start(cfg: Config, l: Links): State {
    State(Spmd.Start(cfg, l.size), Mpi.Start(Blank(l, 0)))
  }

  ghost predicate IsRun(cfg: Config, l: Links, run: seq<State>) {
    && |run| > 0 && run[0] == Start(cfg, l)
    && forall i | 0 <= i < |run| - 1 :: Step(cfg, l, run[i], run[i + 1])
  }

  // ----- the exchanges of one halo length are a run of the protocol

  /** The halo length that the most advanced ranks have set up, after so many setups, with what
      every rank's buffers held after its setup; before is the halo length that came before, and
      stages bounds what has been run. */
  datatype Frame = Frame(c: Case, setups: nat, before: nat, stages: nat)

  function SetupsOf(s: State, r: nat): nat
    requires r < |s.w.ranks|
  {
    ProgressOf(s.w.ranks[r].calls).setups
  }

  /** The protocol as if the ranks that are behind had made their setup too. */
  ghost function View(s: State, f: Frame): (v: Mpi.System)
    requires |s.w.ranks| == |s.net.procs|
    ensures |v.procs| == |s.net.procs|
  {
    Mpi.System(seq(|s.net.procs|, r requires 0 <= r < |s.net.procs| => ProcView(s, f, r)), s.net.chans)
  }

  ghost function ProcView(s: State, f: Frame, r: nat): Mpi.Proc
    requires r < |s.net.procs| == |s.w.ranks|
  {
    if SetupsOf(s, r) == f.setups then s.net.procs[r] else SetUp(s.net.procs[r], f.c.n, r)
  }

  /** The stages a rank has run fit the exchanges it has made. */
  ghost predicate RankJoined(cfg: Config, s: State, f: Frame, r: nat)
    requires r < |s.w.ranks| == |s.net.procs|
  {
    var done, p := ProgressOf(s.w.ranks[r].calls), s.net.procs[r];
    && done.setups <= f.setups && (done.setups == f.setups ==> done.halo == f.c.n && done.before == f.before)
    && if AtExchange(cfg, s.w.ranks[r])
       then 4 * done.made <= p.pc <= 4 * done.made + 4 && (p.begun ==> p.pc < 4 * done.made + 4)
       else p.pc == 4 * done.made && !p.begun
  }

  ghost predicate Led(s: State, f: Frame) {
    |s.w.ranks| == 0 || exists r: nat :: r < |s.w.ranks| && SetupsOf(s, r) == f.setups
  }

  ghost predicate Joined(cfg: Config, l: Links, s: State, f: Frame) {
    && Shaped(l, s) && f.c.l == l && Led(s, f) && Spmd.Inv(cfg, s.w)
    && (forall r: nat | r < l.size :: RankJoined(cfg, s, f, r))
    && Mpi.Inv(f.c, f.stages, View(s, f)) && Resized(f)
  }

  /** A setup that changes the halo length fills hoew with the rank. */
  ghost predicate Resized(f: Frame) {
    f.c.n != f.before ==> forall r: nat | r < f.c.l.size :: RankWords(f.c.init[r], r)
  }

  /** Only ranks of the most advanced halo length are inside exchange. */
  lemma ExchangersLead(cfg: Config, l: Links, s: State, f: Frame, r: nat)
    requires Joined(cfg, l, s, f) && r < l.size && AtExchange(cfg, s.w.ranks[r])
    ensures SetupsOf(s, r) == f.setups && ProgressOf(s.w.ranks[r].calls).halo == f.c.n
    ensures ProgressOf(s.w.ranks[r].calls).before == f.before
  {
    hide Spmd.Inv, Mpi.Inv, ProgressOf;
    var q: nat :| q < |s.w.ranks| && SetupsOf(s, q) == f.setups;
    SetupsClose(cfg, s.w, q, r);
    assert RankJoined(cfg, s, f, r);
  }

  /** The bound may be moved as long as it stays one. */
  lemma Restage(c: Case, stages: nat, stages': nat, s: Mpi.System)
    requires Mpi.Inv(c, stages, s)
    requires forall r: nat | r < c.l.size :: s.procs[r].pc <= stages' && (s.procs[r].begun ==> s.procs[r].pc < stages')
    ensures Mpi.Inv(c, stages', s)
  {
    hide Mpi.Expected, Mpi.InFlight;
    forall r: nat | r < c.l.size
      ensures Mpi.ProcOk(c, stages', s, r)
    {
      assert Mpi.ProcOk(c, stages, s, r);
    }
  }

  lemma Restaged(cfg: Config, l: Links, s: State, f: Frame, more: nat)
    requires Joined(cfg, l, s, f)
    ensures Joined(cfg, l, s, f.(stages := f.stages + more))
  {
    hide Spmd.Inv, Mpi.Causal, Mpi.Expected, Mpi.InFlight;
    var v, f' := View(s, f), f.(stages := f.stages + more);
    assert View(s, f') == v;
    forall r: nat | r < l.size
      ensures v.procs[r].pc <= f'.stages && (v.procs[r].begun ==> v.procs[r].pc < f'.stages)
    {
      assert Mpi.ProcOk(f.c, f.stages, v, r);
    }
    Restage(f.c, f.stages, f'.stages, v);
    forall r: nat | r < l.size
      ensures RankJoined(cfg, s, f', r)
    {
      assert RankJoined(cfg, s, f, r);
    }
    LedBy(s, f, s, f');
  }

  lemma LedBy(s: State, f: Frame, s': State, f': Frame)
    requires Led(s, f) && f'.setups == f.setups && |s'.w.ranks| == |s.w.ranks|
    requires forall r: nat | r < |s.w.ranks| :: SetupsOf(s', r) == SetupsOf(s, r)
    ensures Led(s', f')
  {
    if |s.w.ranks| > 0 {
      var r: nat :| r < |s.w.ranks| && SetupsOf(s, r) == f.setups;
      assert SetupsOf(s', r) == f'.setups;
    }
  }

  lemma StageView(cfg: Config, l: Links, s: State, f: Frame, r: nat, a: Mpi.Action)
    requires Joined(cfg, l, s, f) && Enabled(cfg, l, s, r, Stage(a))
    ensures Mpi.Enabled(f.c, f.stages + 4 * ProgressOf(s.w.ranks[r].calls).made + 4, View(s, f), r, a)
    ensures View(Do(cfg, l, s, r, Stage(a)), f) == Mpi.Do(f.c, View(s, f), r, a)
  {
    hide Spmd.Inv, Mpi.Inv, ProgressOf;
    ExchangersLead(cfg, l, s, f, r);
    var s' := Do(cfg, l, s, r, Stage(a));
    assert View(s, f).procs[r] == s.net.procs[r];
    var v := Mpi.Do(f.c, View(s, f), r, a);
    forall q | 0 <= q < l.size
      ensures View(s', f).procs[q] == v.procs[q]
    {
      assert SetupsOf(s', q) == SetupsOf(s, q);
    }
    assert View(s', f).chans == v.chans;
    assert View(s', f).procs == v.procs;
  }

  lemma StageKeeps(cfg: Config, l: Links, s: State, f: Frame, r: nat, a: Mpi.Action) returns (f': Frame)
    requires Joined(cfg, l, s, f) && Enabled(cfg, l, s, r, Stage(a))
    ensures Joined(cfg, l, Do(cfg, l, s, r, Stage(a)), f') && f'.c == f.c
  {
    hide Spmd.Inv, Mpi.Inv, ProgressOf, View, Mpi.Enabled, Mpi.Do, AtExchange;
    var more := 4 * ProgressOf(s.w.ranks[r].calls).made + 4;
    f' := f.(stages := f.stages + more);
    var s' := Do(cfg, l, s, r, Stage(a));
    Restaged(cfg, l, s, f, more);
    StageView(cfg, l, s, f, r, a);
    assert View(s, f') == View(s, f) && View(s', f') == View(s', f) by { SameView(s, f, f'); SameView(s', f, f'); }
    assert Mpi.Step(f'.c, f'.stages, View(s, f'), View(s', f'));
    Mpi.StepKeeps(f'.c, f'.stages, View(s, f'), View(s', f'));
    forall q: nat | q < l.size
      ensures RankJoined(cfg, s', f', q)
    {
      assert RankJoined(cfg, s, f', q);
      StageRank(cfg, l, s, r, a, q);
    }
    LedBy(s, f', s', f');
  }

  lemma SameView(s: State, f: Frame, f': Frame)
    requires |s.w.ranks| == |s.net.procs| && f'.c == f.c && f'.setups == f.setups
    ensures View(s, f') == View(s, f)
  {
    assert View(s, f').procs == View(s, f).procs;
  }

  /** What a stage of one rank changes in the counters of another. */
  lemma StageRank(cfg: Config, l: Links, s: State, r: nat, a: Mpi.Action, q: nat)
    requires Enabled(cfg, l, s, r, Stage(a)) && q < l.size
    ensures var p, p', more := s.net.procs[q], Do(cfg, l, s, r, Stage(a)).net.procs[q], 4 * ProgressOf(s.w.ranks[r].calls).made + 4;
            if q == r then p.pc < more && p'.pc <= more && p.pc <= p'.pc && (p'.begun ==> p'.pc < more) else p' == p
  {
    hide ProgressOf;
  }

  /** A step of the driver that is not a setup leaves every rank where the protocol has it. */
  lemma DriveView(cfg: Config, l: Links, s: State, f: Frame, s': State)
    requires Joined(cfg, l, s, f) && Shaped(l, s') && s'.net == s.net && Spmd.Inv(cfg, s'.w)
    requires forall q: nat | q < l.size :: SetupsOf(s', q) == SetupsOf(s, q) && RankJoined(cfg, s', f, q)
    ensures Joined(cfg, l, s', f)
  {
    hide Spmd.Inv, Mpi.Inv, ProgressOf, AtExchange, RankJoined;
    LedBy(s, f, s', f);
    assert View(s', f).procs == View(s, f).procs;
  }

  /** The ranks of the driver after a step, and the calls they have made. */
  lemma DriveRank(cfg: Config, w: Spmd.World, r: nat, a: Spmd.Action, q: nat)
    requires |w.contributions| == |w.ranks| && Spmd.Enabled(cfg, w, r, a) && q < |w.ranks|
    ensures var w' := Spmd.Do(cfg, w, r, a); var call := Request(cfg, w.ranks[r].ctl);
            if q != r || a.Resolve? then w'.ranks[q] == w.ranks[q]
            else if a.Leave? then w'.ranks[q].calls == w.ranks[q].calls && w.ranks[q].entered
            else if a.Local? then w'.ranks[q].calls == w.ranks[q].calls + [call] && !Collective(call) && !w.ranks[q].entered
            else w'.ranks[q].calls == w.ranks[q].calls + [call] && Collective(call) && w'.ranks[q].entered
  {
    hide Request, Move, Contributes, Spmd.Combine, Spmd.MatchingCall;
  }

  lemma DriveKeeps(cfg: Config, l: Links, s: State, f: Frame, r: nat, a: Spmd.Action)
    requires Joined(cfg, l, s, f) && Enabled(cfg, l, s, r, Drive(a))
    requires a.Local? ==> !s.w.ranks[r].ctl.BeginHalo?
    ensures Joined(cfg, l, Do(cfg, l, s, r, Drive(a)), f)
  {
    hide Spmd.Inv, Mpi.Inv, ProgressOf, View, Led, Spmd.Enabled, Spmd.Do;
    var s' := Do(cfg, l, s, r, Drive(a));
    SpmdKeeps(cfg, s.w, r, a);
    if a.Local? {
      LocalCalls(cfg, s.w, r);
    }
    forall q: nat | q < l.size
      ensures SetupsOf(s', q) == SetupsOf(s, q) && RankJoined(cfg, s', f, q)
    {
      assert RankJoined(cfg, s, f, q);
      DriveRank(cfg, s.w, r, a, q);
      ProgressNext(s.w.ranks[q].calls, Request(cfg, s.w.ranks[r].ctl));
    }
    DriveView(cfg, l, s, f, s');
  }

  // ----- setup

  /** Once all ranks rest after the same number of stages no message is on its way. */
  lemma Drained(c: Case, stages: nat, v: Mpi.System, t: nat)
    requires Mpi.Inv(c, stages, v) && forall r: nat | r < c.l.size :: v.procs[r].pc == t && !v.procs[r].begun
    ensures forall ch :: v.Queue(ch) == []
  {
    hide Mpi.Expected;
    forall ch
      ensures v.Queue(ch) == []
    {
      assert Mpi.ChannelOk(c, v, ch);
      if Mpi.Routed(c, ch) {
        assert Mpi.ProcOk(c, stages, v, ch.src) && Mpi.ProcOk(c, stages, v, ch.dst);
      }
    }
  }

  ghost predicate FreshAt(c: Case, v: Mpi.System, r: nat)
    requires r < |v.procs| == c.l.size
  {
    v.procs[r] == Mpi.Proc(0, false, false, false, c.init[r])
  }

  lemma FreshInv(c: Case, v: Mpi.System)
    requires |v.procs| == c.l.size && forall r: nat | r < c.l.size :: FreshAt(c, v, r)
    requires forall ch :: v.Queue(ch) == []
    ensures Mpi.Inv(c, 0, v)
  {
    forall r: nat | r < c.l.size
      ensures Mpi.ProcOk(c, 0, v, r)
    {
      assert FreshAt(c, v, r);
    }
    forall b: nat, j: nat | b < c.l.size
      ensures Mpi.SentFirst(c, v, b, j)
    {
      assert FreshAt(c, v, b);
    }
    forall ch
      ensures Mpi.ChannelOk(c, v, ch)
    {
      if Mpi.Routed(c, ch) {
        assert FreshAt(c, v, ch.src) && FreshAt(c, v, ch.dst);
      }
    }
  }

  /** The world after rank r's setup. */
  lemma SetupStep(cfg: Config, l: Links, s: State, r: nat)
    requires Spmd.Inv(cfg, s.w) && Enabled(cfg, l, s, r, Drive(Spmd.Local)) && s.w.ranks[r].ctl.BeginHalo?
    ensures var s' := Do(cfg, l, s, r, Drive(Spmd.Local)); var h := s.w.ranks[r].ctl.h;
            && r < l.size && h < |cfg.halos| && Shaped(l, s') && Spmd.Inv(cfg, s'.w)
            && s'.net.procs == s.net.procs[r := SetUp(s.net.procs[r], cfg.halos[h], r)] && s'.net.chans == s.net.chans
            && ProgressOf(s'.w.ranks[r].calls) == Progress(SetupsOf(s, r) + 1, HaloOf(s, r), cfg.halos[h], 0)
            && (forall q: nat | q < l.size && q != r :: s'.w.ranks[q] == s.w.ranks[q])
            && AtExchange(cfg, s'.w.ranks[r])
  {
    hide Spmd.Inv, ProgressOf;
    SpmdKeeps(cfg, s.w, r, Spmd.Local);
    MeetAtSetup(cfg, s.w, r, r);
    ProgressNext(s.w.ranks[r].calls, Request(cfg, s.w.ranks[r].ctl));
  }

  /** A rank that is behind joins the others. */
  lemma CatchUp(cfg: Config, l: Links, s: State, f: Frame, r: nat)
    requires Joined(cfg, l, s, f) && Enabled(cfg, l, s, r, Drive(Spmd.Local)) && s.w.ranks[r].ctl.BeginHalo?
    requires SetupsOf(s, r) != f.setups
    ensures Joined(cfg, l, Do(cfg, l, s, r, Drive(Spmd.Local)), f)
  {
    hide Spmd.Inv, Mpi.Inv, ProgressOf, AtExchange, Enabled, Do;
    var s' := Do(cfg, l, s, r, Drive(Spmd.Local));
    SetupStep(cfg, l, s, r);
    var q: nat :| q < |s.w.ranks| && SetupsOf(s, q) == f.setups;
    MeetAtSetup(cfg, s.w, q, r);
    assert RankJoined(cfg, s, f, q) && RankJoined(cfg, s, f, r);
    assert SetupsOf(s', r) == f.setups;
    forall p: nat | p < l.size
      ensures RankJoined(cfg, s', f, p) && View(s', f).procs[p] == View(s, f).procs[p]
    {
      assert RankJoined(cfg, s, f, p);
    }
    assert View(s', f).procs == View(s, f).procs;
  }

  /** The first setup of a halo length: all exchanges of the last one are over on every rank. */
  lemma AllOver(cfg: Config, l: Links, s: State, f: Frame, r: nat)
    requires Joined(cfg, l, s, f) && r < l.size && s.w.ranks[r].ctl.BeginHalo? && SetupsOf(s, r) == f.setups
    ensures forall q: nat | q < l.size :: SetupsOf(s, q) == f.setups && !s.net.procs[q].begun
                                       && s.net.procs[q].pc == 4 * ProgressOf(s.w.ranks[r].calls).made
                                       && HaloOf(s, q) == f.c.n
    ensures forall ch :: s.net.Queue(ch) == []
  {
    hide Spmd.Inv, Mpi.Inv, ProgressOf, AtExchange;
    var made := ProgressOf(s.w.ranks[r].calls).made;
    forall q: nat | q < l.size
      ensures SetupsOf(s, q) == f.setups && !s.net.procs[q].begun && s.net.procs[q].pc == 4 * made && HaloOf(s, q) == f.c.n
    {
      MeetAtSetup(cfg, s.w, q, r);
      assert RankJoined(cfg, s, f, q);
    }
    var v := View(s, f);
    forall q: nat | q < l.size
      ensures v.procs[q].pc == 4 * made && !v.procs[q].begun
    {
    }
    Drained(f.c, f.stages, v, 4 * made);
    forall ch
      ensures s.net.Queue(ch) == []
    {
      assert v.Queue(ch) == s.net.Queue(ch);
    }
  }

  function NextFrame(l: Links, net: Mpi.System, n: nat, setups: nat, before: nat): Frame
    requires |net.procs| == l.size
  {
    Frame(Setting(l, n, seq(l.size, q requires 0 <= q < l.size => Prepared(net.procs[q].bufs, n, q))), setups, before, 0)
  }

  lemma FirstSetup(cfg: Config, l: Links, s: State, f: Frame, r: nat) returns (f': Frame)
    requires Joined(cfg, l, s, f) && Enabled(cfg, l, s, r, Drive(Spmd.Local)) && s.w.ranks[r].ctl.BeginHalo?
    requires SetupsOf(s, r) == f.setups
    ensures Joined(cfg, l, Do(cfg, l, s, r, Drive(Spmd.Local)), f')
  {
    hide Spmd.Inv, Mpi.Inv, ProgressOf, AtExchange, Enabled, Do;
    var s' := Do(cfg, l, s, r, Drive(Spmd.Local));
    SetupStep(cfg, l, s, r);
    AllOver(cfg, l, s, f, r);
    f' := NextFrame(l, s.net, cfg.halos[s.w.ranks[r].ctl.h], f.setups + 1, f.c.n);
    var v := View(s', f');
    forall q: nat | q < l.size
      ensures RankJoined(cfg, s', f', q) && FreshAt(f'.c, v, q)
    {
      assert RankJoined(cfg, s, f, q);
    }
    forall ch
      ensures v.Queue(ch) == []
    {
      assert v.Queue(ch) == s.net.Queue(ch);
    }
    FreshInv(f'.c, v);
    assert SetupsOf(s', r) == f'.setups;
    NextResized(cfg, l, s, f, f');
  }

  lemma NextResized(cfg: Config, l: Links, s: State, f: Frame, f': Frame)
    requires Joined(cfg, l, s, f) && f'.c.l == l && f'.before == f.c.n
    requires forall q: nat | q < l.size :: SetupsOf(s, q) == f.setups && f'.c.init[q] == Prepared(s.net.procs[q].bufs, f'.c.n, q)
    ensures Resized(f')
  {
    hide Spmd.Inv, Mpi.Causal, Mpi.ChannelOk, RankJoined, Prepared;
    forall q: nat | q < l.size
      ensures f'.c.n != f.c.n ==> RankWords(f'.c.init[q], q)
    {
      assert Mpi.ProcOk(f.c, f.stages, View(s, f), q);
      SizedStage(f.c, s.net.procs[q], q);
      PreparedWords(s.net.procs[q].bufs, f'.c.n, q);
    }
  }

  lemma SizedStage(c: Case, p: Mpi.Proc, r: nat)
    requires r < c.l.size && p.bufs == Mpi.Expected(c, p, r)
    ensures |p.bufs.hoew| == 3 * c.n
  {
    hide Halo.After;
    assert Halo.After(c, p.pc)[r].Sized(c.n) && Halo.After(c, p.pc + 1)[r].Sized(c.n);
  }

  // ----- the main results

  lemma StepKeeps(cfg: Config, l: Links, s: State, f: Frame, s': State) returns (f': Frame)
    requires Joined(cfg, l, s, f) && Step(cfg, l, s, s')
    ensures Joined(cfg, l, s', f')
  {
    hide Joined, Do, Mpi.Enabled, Spmd.Enabled, AtExchange, ProgressOf;
    var r: nat, act :| Enabled(cfg, l, s, r, act) && s' == Do(cfg, l, s, r, act);
    match act {
      case Stage(a) =>
        f' := StageKeeps(cfg, l, s, f, r, a);
      case Drive(a) =>
        if a.Local? && s.w.ranks[r].ctl.BeginHalo? {
          if SetupsOf(s, r) == f.setups {
            f' := FirstSetup(cfg, l, s, f, r);
          } else {
            f' := f;
            CatchUp(cfg, l, s, f, r);
          }
        } else {
          f' := f;
          DriveKeeps(cfg, l, s, f, r, a);
        }
    }
  }

  lemma StartJoined(cfg: Config, l: Links) returns (f: Frame)
    requires ValidConfig(cfg)
    ensures Joined(cfg, l, Start(cfg, l), f)
  {
    hide Spmd.Inv, Mpi.Inv;
    f := Frame(Blank(l, 0), 0, 0, 0);
    var s := Start(cfg, l);
    Spmd.StartInv(cfg, l.size);
    var v := View(s, f);
    forall r: nat | r < l.size
      ensures RankJoined(cfg, s, f, r) && FreshAt(f.c, v, r) && SetupsOf(s, r) == f.setups
    {
    }
    FreshInv(f.c, v);
    assert Shaped(l, s);
    if l.size > 0 {
      assert SetupsOf(s, 0) == f.setups;
    }
  }

  /** Whatever the interleaving, the exchanges of the current halo length are a run of the
      protocol that starts from the ranks' setups, and the driver stays aligned. */
  lemma {:induction false} RunsAreSafe(cfg: Config, l: Links, run: seq<State>) returns (f: Frame)
    requires ValidConfig(cfg) && IsRun(cfg, l, run)
    ensures Joined(cfg, l, run[|run| - 1], f)
  {
    hide Joined, Step;
    var m := |run| - 1;
    if m == 0 {
      f := StartJoined(cfg, l);
    } else {
      f := RunsAreSafe(cfg, l, run[..m]);
      assert Step(cfg, l, run[m - 1], run[m]);
      f := StepKeeps(cfg, l, run[m - 1], f, run[m]);
    }
  }

  function HaloOf(s: State, r: nat): nat
    requires r < |s.w.ranks|
  {
    ProgressOf(s.w.ranks[r].calls).halo
  }

  /** No rank is further than the sender, and whoever is inside exchange is where the sender is. */
  ghost predicate NotBeyond(cfg: Config, s: State, q: nat, src: nat)
    requires q < |s.w.ranks| && src < |s.w.ranks|
  {
    && SetupsOf(s, q) <= SetupsOf(s, src)
    && (AtExchange(cfg, s.w.ranks[q]) ==> SetupsOf(s, q) == SetupsOf(s, src) && HaloOf(s, q) == HaloOf(s, src))
  }

  /** Messages of two halo lengths never meet: whenever one is on its way it is alone in its
      channel, has the length its sender's setup asks for, and every rank that is inside exchange,
      its receiver in particular, has made the same setup. */
  lemma HalosSeparate(cfg: Config, l: Links, run: seq<State>, ch: Mpi.Channel)
    requires ValidConfig(cfg) && IsRun(cfg, l, run) && run[|run| - 1].net.Queue(ch) != []
    ensures var s := run[|run| - 1];
            && Shaped(l, s) && ch.src < l.size && ch.dst < l.size && 9901 <= ch.tag < 9905
            && |s.net.Queue(ch)| == 1 && |s.net.Queue(ch)[0]| == SegLen(HaloOf(s, ch.src), ch.tag - 9901)
            && forall q: nat | q < l.size :: NotBeyond(cfg, s, q, ch.src)
  {
    hide Spmd.Inv, Mpi.ProcOk, Mpi.Causal, ProgressOf, AtExchange;
    var s := run[|run| - 1];
    var f := RunsAreSafe(cfg, l, run);
    var v := View(s, f);
    assert v.Queue(ch) == s.net.Queue(ch);
    assert Mpi.ChannelOk(f.c, v, ch);
    assert RankJoined(cfg, s, f, ch.src);
    assert SetupsOf(s, ch.src) == f.setups;
    forall q: nat | q < l.size
      ensures NotBeyond(cfg, s, q, ch.src)
    {
      assert RankJoined(cfg, s, f, q);
      if AtExchange(cfg, s.w.ranks[q]) {
        ExchangersLead(cfg, l, s, f, q);
      }
    }
  }

  /** A rank only ever receives what its neighbour sent in the same stage of the same exchange
      of the same halo length. */
  lemma ReceivesOwnHalo(cfg: Config, l: Links, run: seq<State>, r: nat)
    requires ValidConfig(cfg) && IsRun(cfg, l, run) && Enabled(cfg, l, run[|run| - 1], r, Stage(Mpi.Receive))
    ensures var s := run[|run| - 1]; var j := s.net.procs[r].pc; var a := Src(l, Kind(j), r);
            && SetupsOf(s, a) == SetupsOf(s, r) && HaloOf(s, a) == HaloOf(s, r)
            && j < s.net.procs[a].Sends()
            && |s.net.Queue(Mpi.Channel(a, r, Mpi.Tag(Kind(j))))| == 1
            && |s.net.Queue(Mpi.Channel(a, r, Mpi.Tag(Kind(j))))[0]| == SegLen(HaloOf(s, r), Kind(j))
  {
    hide Spmd.Inv, Mpi.Inv, ProgressOf, AtExchange, Mpi.Do;
    var s := run[|run| - 1];
    var f := RunsAreSafe(cfg, l, run);
    StageView(cfg, l, s, f, r, Mpi.Receive);
    var more := 4 * ProgressOf(s.w.ranks[r].calls).made + 4;
    Restaged(cfg, l, s, f, more);
    var v := View(s, f);
    SameView(s, f.(stages := f.stages + more), f);
    ExchangersLead(cfg, l, s, f, r);
    assert v.procs[r] == s.net.procs[r];
    Mpi.ReceivedWords(f.c, f.stages + more, v, r);
    var j := s.net.procs[r].pc;
    var a := Src(l, Kind(j), r);
    assert v.procs[a].Sends() > 0;
    assert SetupsOf(s, a) == f.setups;
    assert RankJoined(cfg, s, f, a);
    assert v.Queue(Mpi.Inbound(f.c, r, j)) == s.net.Queue(Mpi.Channel(a, r, Mpi.Tag(Kind(j))));
  }

  /** Between exchanges a rank of the current halo length holds what the reference says. */
  lemma ReferenceBuffers(cfg: Config, l: Links, s: State, f: Frame, r: nat)
    requires Joined(cfg, l, s, f) && r < l.size && SetupsOf(s, r) == f.setups && !AtExchange(cfg, s.w.ranks[r])
    ensures s.net.procs[r].bufs == Halo.After(f.c, 4 * ProgressOf(s.w.ranks[r].calls).made)[r]
  {
    hide Spmd.Inv, Mpi.Causal, Mpi.ChannelOk, ProgressOf, AtExchange, Halo.After;
    assert RankJoined(cfg, s, f, r);
    assert Mpi.ProcOk(f.c, f.stages, View(s, f), r);
  }

  /** In any run: after a setup that changed the halo length and k exchanges since, each word of a
      rank's hoew is the number of the rank ((r + k) mod rows, (c + k) mod cols) or
      ((r - k) mod rows, (c - k) mod cols). */
  lemma SetupWords(cfg: Config, g: Grid, run: seq<State>, r: nat, i: nat)
    requires ValidConfig(cfg) && IsRun(cfg, Torus(g), run) && r < g.Size() && Shaped(Torus(g), run[|run| - 1])
    requires var s := run[|run| - 1]; var done := ProgressOf(s.w.ranks[r].calls);
             && done.before != done.halo && !AtExchange(cfg, s.w.ranks[r]) && i < 3 * done.halo
             && forall q: nat | q < g.Size() :: SetupsOf(s, q) <= SetupsOf(s, r)
    ensures g.rows > 0 && g.cols > 0
    ensures var s := run[|run| - 1]; var done := ProgressOf(s.w.ranks[r].calls);
            var step := if i < done.halo then done.made as int else -(done.made as int);
            var row, col := (g.Row(r) as int + step) % g.rows, (g.Col(r) as int + step) % g.cols;
            && |s.net.procs[r].bufs.hoew| == 3 * done.halo
            && row < g.rows && col < g.cols && s.net.procs[r].bufs.hoew[i] == g.Rank(row, col)
  {
    hide Spmd.Inv, Mpi.Inv, ProgressOf, AtExchange, Halo.After, Grid.Row, Grid.Col, Grid.Rank, View;
    var s := run[|run| - 1];
    var f := RunsAreSafe(cfg, Torus(g), run);
    var q: nat :| q < |s.w.ranks| && SetupsOf(s, q) == f.setups;
    assert RankJoined(cfg, s, f, r);
    assert SetupsOf(s, r) == f.setups;
    ReferenceBuffers(cfg, Torus(g), s, f, r);
    RankNumbers(g, f.c, ProgressOf(s.w.ranks[r].calls).made, r, i);
  }

  // ----- progress

  /** Enabled without the system buffering any message. */
  ghost predicate Unbuffered(cfg: Config, l: Links, s: State, r: nat, act: Action) {
    Enabled(cfg, l, s, r, act)
    && (act == Stage(Mpi.Leave) ==> s.net.Queue(Mpi.Channel(r, Dest(l, Kind(s.net.procs[r].pc), r), Mpi.Tag(Kind(s.net.procs[r].pc)))) == [])
  }

  /** The rank can do nothing before the others: it waits for them, is done, or is in the
      middle of an exchange. */
  ghost predicate Held(cfg: Config, s: State, q: nat)
    requires q < |s.w.ranks| == |s.net.procs|
  {
    var p := s.w.ranks[q];
    if p.entered then p.left >= |s.w.results|
    else if AtExchange(cfg, p) then s.net.procs[q].pc != 4 * ProgressOf(p.calls).made + 4
    else Terminal(p.ctl)
  }

  /** The exchanges of the current halo length that every rank makes before the next collective. */
  function Due(cfg: Config, w: Spmd.World): Progress {
    ProgressOf(Script(cfg, w.results))
  }

  lemma HeldCalls(cfg: Config, s: State, q: nat)
    requires Spmd.Inv(cfg, s.w) && q < |s.w.ranks| == |s.net.procs| && Held(cfg, s, q)
    ensures var p := s.w.ranks[q]; var done, due := ProgressOf(p.calls), Due(cfg, s.w);
            && done.setups == due.setups
            && if AtExchange(cfg, p) then done.made < due.made else done.made == due.made
  {
    hide Spmd.Inv, ProgressOf, Segment, Script, Wait, Epoch, Move;
    var p := s.w.ranks[q];
    if AtExchange(cfg, p) {
      Standing(cfg, s.w, q);
      SegmentStart(cfg, s.w.results);
      SegmentOf(cfg, p.ctl);
      ProgressAdds(p.calls, Segment(cfg, p.ctl));
    } else {
      AtRest(cfg, s.w, q);
    }
  }

  lemma AtRest(cfg: Config, w: Spmd.World, q: nat)
    requires Spmd.Inv(cfg, w) && q < |w.ranks|
    requires var p := w.ranks[q]; if p.entered then p.left >= |w.results| else Terminal(p.ctl)
    ensures w.ranks[q].calls == Script(cfg, w.results)
  {
    hide Segment, Script, Wait, Epoch, Move;
    assert Spmd.RankOk(cfg, w, q);
    Spmd.AtEpochEnd(cfg, w, q);
  }

  /** A rank that is not held can go on. */
  lemma NotHeld(cfg: Config, l: Links, s: State, f: Frame, q: nat) returns (act: Action)
    requires Joined(cfg, l, s, f) && q < l.size && !Held(cfg, s, q)
    ensures Unbuffered(cfg, l, s, q, act)
  {
    hide ProgressOf, Mpi.Inv, Spmd.Combine;
    var p := s.w.ranks[q];
    var call := Request(cfg, p.ctl);
    assert Spmd.RankOk(cfg, s.w, q);
    if p.entered {
      act := Drive(Spmd.Leave);
    } else if Collective(call) {
      act := Drive(Spmd.Enter(Spmd.AnyContribution(p.ctl, call)));
    } else {
      act := Drive(Spmd.Local);
    }
  }

  lemma AllHeld(cfg: Config, l: Links, s: State, f: Frame, q: nat)
    requires Joined(cfg, l, s, f) && q < l.size && forall r: nat | r < l.size :: Held(cfg, s, r)
    ensures View(s, f) == s.net && Due(cfg, s.w).setups == f.setups
    ensures Mpi.Inv(f.c, 4 * Due(cfg, s.w).made, s.net)
  {
    hide Spmd.Inv, Mpi.Inv, ProgressOf, AtExchange, Held, Due;
    var p: nat :| p < |s.w.ranks| && SetupsOf(s, p) == f.setups;
    HeldCalls(cfg, s, p);
    var due := 4 * Due(cfg, s.w).made;
    forall r: nat | r < l.size
      ensures SetupsOf(s, r) == f.setups && s.net.procs[r].pc <= due && (s.net.procs[r].begun ==> s.net.procs[r].pc < due)
    {
      HeldCalls(cfg, s, r);
      assert RankJoined(cfg, s, f, r);
    }
    assert View(s, f).procs == s.net.procs;
    Restage(f.c, f.stages, due, s.net);
  }

  /** No deadlock: while a rank is not done some rank can go on, in the driver or in an exchange,
      even if the system buffers no message. */
  lemma DeadlockFree(cfg: Config, l: Links, s: State, f: Frame) returns (r: nat, act: Action)
    requires Joined(cfg, l, s, f) && exists q: nat :: q < l.size && !Terminal(s.w.ranks[q].ctl)
    ensures Unbuffered(cfg, l, s, r, act)
  {
    hide Spmd.Inv, Mpi.Inv, ProgressOf, AtExchange, Held, Unbuffered, Joined, RankJoined, Mpi.Enabled, Spmd.Enabled;
    assert Shaped(l, s) by { JoinedShape(cfg, l, s, f); }
    if q: nat :| q < l.size && !Held(cfg, s, q) {
      r := q;
      act := NotHeld(cfg, l, s, f, q);
    } else if q: nat :| q < l.size && AtExchange(cfg, s.w.ranks[q]) {
      r, act := MidExchange(cfg, l, s, f, q);
    } else {
      r, act := AllWait(cfg, l, s, f);
    }
  }

  lemma JoinedShape(cfg: Config, l: Links, s: State, f: Frame)
    requires Joined(cfg, l, s, f)
    ensures Shaped(l, s) && f.c.l == l && Spmd.Inv(cfg, s.w)
  {
  }

  lemma MidExchange(cfg: Config, l: Links, s: State, f: Frame, q: nat) returns (r: nat, act: Action)
    requires Joined(cfg, l, s, f) && q < l.size && AtExchange(cfg, s.w.ranks[q])
    requires forall r: nat | r < l.size :: Held(cfg, s, r)
    ensures Unbuffered(cfg, l, s, r, act)
  {
    hide Spmd.Inv, Mpi.Inv, ProgressOf, Due, Request;
    var due := 4 * Due(cfg, s.w).made;
    AllHeld(cfg, l, s, f, q);
    HeldCalls(cfg, s, q);
    assert RankJoined(cfg, s, f, q);
    assert s.net.procs[q].pc != due;
    var a;
    r, a := Mpi.DeadlockFree(f.c, due, s.net);
    act := Stage(a);
    HeldCalls(cfg, s, r);
    assert RankJoined(cfg, s, f, r);
  }

  lemma AllWait(cfg: Config, l: Links, s: State, f: Frame) returns (r: nat, act: Action)
    requires Joined(cfg, l, s, f) && exists q: nat :: q < l.size && !Terminal(s.w.ranks[q].ctl)
    requires forall r: nat | r < l.size :: !AtExchange(cfg, s.w.ranks[r])
    ensures Unbuffered(cfg, l, s, r, act)
  {
    hide Spmd.Inv, Mpi.Inv, ProgressOf, AtExchange, RankJoined, Spmd.MatchingCall, Contributes;
    var a;
    r, a := Spmd.NeverStuck(cfg, s.w);
    act := Drive(a);
  }

  /** When all ranks are done no message is left. */
  lemma NothingLeft(cfg: Config, l: Links, run: seq<State>)
    requires ValidConfig(cfg) && IsRun(cfg, l, run)
    ensures var s := run[|run| - 1];
            Shaped(l, s) && ((forall q: nat | q < l.size :: Terminal(s.w.ranks[q].ctl)) ==> forall ch :: s.net.Queue(ch) == [])
  {
    hide Spmd.Inv, Mpi.Inv, ProgressOf, Due;
    var s := run[|run| - 1];
    var f := RunsAreSafe(cfg, l, run);
    if forall q: nat | q < l.size :: Terminal(s.w.ranks[q].ctl) {
      forall q: nat | q < l.size
        ensures Held(cfg, s, q) && s.net.procs[q].pc == 4 * Due(cfg, s.w).made && !s.net.procs[q].begun
      {
        TerminalRests(cfg, s.w, q);
        HeldCalls(cfg, s, q);
        assert RankJoined(cfg, s, f, q);
      }
      if l.size > 0 {
        AllHeld(cfg, l, s, f, 0);
        Drained(f.c, 4 * Due(cfg, s.w).made, s.net, 4 * Due(cfg, s.w).made);
      } else {
        Drained(f.c, f.stages, View(s, f), 0);
        assert forall ch :: View(s, f).Queue(ch) == s.net.Queue(ch);
      }
    }
  }

  lemma TerminalRests(cfg: Config, w: Spmd.World, q: nat)
    requires Spmd.Inv(cfg, w) && q < |w.ranks| && Terminal(w.ranks[q].ctl)
    ensures !w.ranks[q].entered && !AtExchange(cfg, w.ranks[q])
  {
    assert Spmd.RankOk(cfg, w, q);
  }
}
