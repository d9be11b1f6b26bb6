/** Runs of the RCCL exchange: termination, what a returned exchange leaves in the buffers in
    either mode, matching of the untagged messages, and deadlock freedom. */
module RcclExchange {
  import opened Topology
  import opened Halo
  import opened RcclStream
  import opened RcclWires

  // ----- termination

  /** Host instructions left in exchanges k and later of rank r, including the moves between
      ops and the returns. */
  function HostLeft(modes: Modes, goal: nat, r: nat, k: nat): nat
    decreases goal - k
  {
    if k >= goal then 0
    else 5 + ChunkLen(modes(r, k), 0) + ChunkLen(modes(r, k), 1) + ChunkLen(modes(r, k), 2)
         + ChunkLen(modes(r, k), 3) + HostLeft(modes, goal, r, k + 1)
  }

  /** Host steps rank r has taken in its current exchange. */
  function Taken(y: Style, p: Rank): nat {
    p.op + p.at + (if p.op > 0 then ChunkLen(y, 0) else 0) + (if p.op > 1 then ChunkLen(y, 1) else 0)
    + (if p.op > 2 then ChunkLen(y, 2) else 0) + (if p.op > 3 then ChunkLen(y, 3) else 0)
  }

  function HostRest(modes: Modes, goal: nat, r: nat, p: Rank): int {
    HostLeft(modes, goal, r, p.k) - Taken(modes(r, p.k), p)
  }

  /** A bound on the steps rank r still has to take: an op costs at most five. */
  function Left(modes: Modes, goal: nat, r: nat, p: Rank): int {
    6 * HostRest(modes, goal, r, p) + 5 * |p.stream|
    - (if p.sent0 then 1 else 0) - (if p.sent1 then 1 else 0)
    - (if p.got0 then 1 else 0) - (if p.got1 then 1 else 0)
  }

  function Remaining(modes: Modes, goal: nat, ranks: seq<Rank>): int {
    if |ranks| == 0 then 0
    else Remaining(modes, goal, ranks[..|ranks| - 1]) + Left(modes, goal, |ranks| - 1, ranks[|ranks| - 1])
  }

  lemma {:induction false} RemainingUpdate(modes: Modes, goal: nat, ranks: seq<Rank>, r: nat, p: Rank)
    requires r < |ranks|
    ensures Remaining(modes, goal, ranks[r := p])
         == Remaining(modes, goal, ranks) - Left(modes, goal, r, ranks[r]) + Left(modes, goal, r, p)
  {
    var m := |ranks| - 1;
    if r == m {
      assert ranks[r := p][..m] == ranks[..m];
    } else {
      RemainingUpdate(modes, goal, ranks[..m], r, p);
      assert ranks[r := p][..m] == ranks[..m][r := p];
    }
  }

  lemma {:induction false} RemainingBound(modes: Modes, goal: nat, ranks: seq<Rank>)
    requires forall r: nat | r < |ranks| :: Left(modes, goal, r, ranks[r]) >= 0
    ensures Remaining(modes, goal, ranks) >= 0
  {
    if |ranks| > 0 {
      RemainingBound(modes, goal, ranks[..|ranks| - 1]);
    }
  }

  lemma TakenStep(n: nat, y: Style, p: Rank)
    requires p.op < 4 && p.at <= ChunkLen(y, p.op)
    ensures Taken(y, HostStep(n, y, p)) == Taken(y, p) + 1
  {
    if p.at < ChunkLen(y, p.op) {
      assert HostStep(n, y, p).op == p.op && HostStep(n, y, p).at == p.at + 1;
    } else {
      assert HostStep(n, y, p).op == p.op + 1 && HostStep(n, y, p).at == 0;
    }
  }

  lemma HostRestStep(n: nat, modes: Modes, goal: nat, r: nat, p: Rank)
    requires HostOk(n, goal, modes(r, p.k), p) && p.k < goal
    ensures HostRest(modes, goal, r, HostStep(n, modes(r, p.k), p)) == HostRest(modes, goal, r, p) - 1
  {
    if p.op < 4 {
      TakenStep(n, modes(r, p.k), p);
    }
  }

  lemma LeftHost(n: nat, modes: Modes, goal: nat, r: nat, p: Rank)
    requires HostOk(n, goal, modes(r, p.k), p) && p.k < goal
    ensures Left(modes, goal, r, HostStep(n, modes(r, p.k), p)) < Left(modes, goal, r, p)
  {
    HostRestStep(n, modes, goal, r, p);
    HostShape(n, modes(r, p.k), p);
  }

  lemma HostShape(n: nat, y: Style, p: Rank)
    ensures var p' := HostStep(n, y, p);
            && |p'.stream| <= |p.stream| + 1
            && p' == p.(k := p'.k, op := p'.op, at := p'.at, stream := p'.stream)
  {
  }

  lemma LeftDevice(c: Case, modes: Modes, goal: nat, s: System, r: nat, act: Action)
    requires |s.ranks| == c.l.size && Enabled(c, modes, goal, s, r, act) && act != Host
    ensures Left(modes, goal, r, Do(c, modes, s, r, act).ranks[r]) < Left(modes, goal, r, s.ranks[r])
  {
    var p, p' := s.ranks[r], Do(c, modes, s, r, act).ranks[r];
    assert HostRest(modes, goal, r, p') == HostRest(modes, goal, r, p);
  }

  lemma LeftBound(c: Case, modes: Modes, goal: nat, r: nat, p: Rank)
    requires r < c.l.size && RankOk(c, modes, goal, r, p)
    ensures Left(modes, goal, r, p) >= 0
  {
  }

  // ----- the theorems

  lemma DoKeeps(c: Case, modes: Modes, goal: nat, s: System, r: nat, act: Action)
    requires Inv(c, modes, goal, s) && Enabled(c, modes, goal, s, r, act)
    ensures Inv(c, modes, goal, Do(c, modes, s, r, act))
  {
    match act {
      case Host => HostInv(c, modes, goal, s, r);
      case CopyOp => CopyInv(c, modes, goal, s, r);
      case Send(second) => SendInv(c, modes, goal, s, r, second);
      case Recv(second) => RecvInv(c, modes, goal, s, r, second);
      case Complete => CompleteInv(c, modes, goal, s, r);
    }
  }

  lemma StepKeeps(c: Case, modes: Modes, goal: nat, s: System, s': System)
    requires Inv(c, modes, goal, s) && Step(c, modes, goal, s, s')
    ensures Inv(c, modes, goal, s')
    ensures Remaining(modes, goal, s'.ranks) < Remaining(modes, goal, s.ranks)
  {
    var r: nat, act :| Enabled(c, modes, goal, s, r, act) && s' == Do(c, modes, s, r, act);
    DoKeeps(c, modes, goal, s, r, act);
    if act == Host {
      assert RankAt(c, modes, goal, s, r);
      LeftHost(c.n, modes, goal, r, s.ranks[r]);
    } else {
      LeftDevice(c, modes, goal, s, r, act);
    }
    RemainingUpdate(modes, goal, s.ranks, r, s'.ranks[r]);
  }

  lemma StartInv(c: Case, modes: Modes, goal: nat)
    ensures Inv(c, modes, goal, Start(c))
  {
    var s := Start(c);
    forall r: nat | r < c.l.size
      ensures RankAt(c, modes, goal, s, r)
    {
      assert After(c, 0)[r] == c.init[r];
    }
    forall a: nat, b: nat
      ensures WireAt(c, modes, goal, s, a, b)
    {
      if a < c.l.size && b < c.l.size && c.n > 0 {
        Backlog.None(PendingFrom(c, Reach(modes, a, s.ranks[a]), Reach(modes, b, s.ranks[b]), a, b),
                     MessagesOf(c, a), 4 * goal);
      }
    }
  }

  /** Every reachable state satisfies the invariant and every run ends: no run has more steps
      than the measure of the start state. */
  lemma {:induction false} RunsAreSafe(c: Case, modes: Modes, goal: nat, run: seq<System>)
    requires IsRun(c, modes, goal, run)
    ensures Inv(c, modes, goal, run[|run| - 1])
    ensures |run| - 1 <= Remaining(modes, goal, Start(c).ranks) - Remaining(modes, goal, run[|run| - 1].ranks)
    ensures Remaining(modes, goal, run[|run| - 1].ranks) >= 0
  {
    var m := |run| - 1;
    if m == 0 {
      StartInv(c, modes, goal);
    } else {
      RunsAreSafe(c, modes, goal, run[..m]);
      assert Step(c, modes, goal, run[m - 1], run[m]);
      StepKeeps(c, modes, goal, run[m - 1], run[m]);
    }
    forall r: nat | r < c.l.size
      ensures Left(modes, goal, r, run[m].ranks[r]) >= 0
    {
      assert RankAt(c, modes, goal, run[m], r);
      LeftBound(c, modes, goal, r, run[m].ranks[r]);
    }
    RemainingBound(modes, goal, run[m].ranks);
  }

  /** The host is not inside an exchange. */
  predicate Between(p: Rank) { p.op == 0 && p.at == 0 }

  /** Whenever a host has returned from its k-th exchange, its rank's four buffers are those
      of k exchanges, whatever the other ranks have done and however each rank synchronises. */
  lemma ReturnedBuffers(c: Case, modes: Modes, goal: nat, run: seq<System>, r: nat)
    requires IsRun(c, modes, goal, run) && r < c.l.size
    ensures var s := run[|run| - 1];
            |s.ranks| == c.l.size &&
            (Between(s.ranks[r]) ==>
               s.ranks[r].stream == [] && s.ranks[r].bufs == After(c, 4 * s.ranks[r].k)[r])
  {
    RunsAreSafe(c, modes, goal, run);
    assert RankAt(c, modes, goal, run[|run| - 1], r);
    if Between(run[|run| - 1].ranks[r]) {
      BetweenExchanges(c, modes, goal, r, run[|run| - 1].ranks[r]);
    }
  }

  lemma BetweenExchanges(c: Case, modes: Modes, goal: nat, r: nat, p: Rank)
    requires r < c.l.size && RankOk(c, modes, goal, r, p) && Between(p)
    ensures p.stream == [] && p.bufs == After(c, 4 * p.k)[r]
  {
    var d := p.Done(modes(r, p.k));
    BetweenDrained(c.n, goal, modes(r, p.k), p);
    KindOf(p.k, 0);
    WholeExchanges(c, r, d, p);
  }

  lemma BetweenDrained(n: nat, goal: nat, y: Style, p: Rank)
    requires HostOk(n, goal, y, p) && Between(p)
    ensures p.stream == [] && p.Done(y) == 4 * p.k
  {
    assert Unsynced(y, p.op, p.at) == 0;
  }

  lemma WholeExchanges(c: Case, r: nat, d: nat, p: Rank)
    requires r < c.l.size && DeviceOk(c, r, d, p) && p.stream == [] && Kind(d) == 0
    ensures p.bufs == After(c, d)[r]
  {
    assert After(c, d)[r].Sized(c.n);
    if c.n == 0 {
      NoWords(p.bufs, After(c, d)[r]);
    }
  }

  lemma NoWords(b: Buffers, b': Buffers)
    requires b.Sized(0) && b'.Sized(0)
    ensures b == b'
  {
  }

  /** Stream-ordered mode refines conservative mode: take any two runs, in any two
      assignments of synchronisation modes and phase timing to ranks and exchanges. Wherever
      a rank has returned from the same number of exchanges, it holds the same words. */
  lemma ModesAgree(c: Case, modes: Modes, goal: nat, run: seq<System>,
                   modes': Modes, goal': nat, run': seq<System>, r: nat)
    requires IsRun(c, modes, goal, run) && IsRun(c, modes', goal', run') && r < c.l.size
    ensures var s, s' := run[|run| - 1], run'[|run'| - 1];
            && |s.ranks| == |s'.ranks| == c.l.size
            && (Between(s.ranks[r]) && Between(s'.ranks[r]) && s.ranks[r].k == s'.ranks[r].k ==>
                  s.ranks[r].bufs == s'.ranks[r].bufs)
  {
    ReturnedBuffers(c, modes, goal, run, r);
    ReturnedBuffers(c, modes', goal', run', r);
  }

  /** A receive that can be taken finds a message of exactly its segment's length, and the
      words its source meant for that segment. */
  lemma NoMismatch(c: Case, modes: Modes, goal: nat, run: seq<System>, r: nat, second: bool)
    requires IsRun(c, modes, goal, run)
    requires |run[|run| - 1].ranks| == c.l.size && Enabled(c, modes, goal, run[|run| - 1], r, Recv(second))
    ensures var s := run[|run| - 1];
            var j, a := HalfStage(s.ranks[r].stream[0], second), From(c, r, s.ranks[r].stream[0], second);
            s.Queue(a, r)[0] == Message(c, j, a) && |s.Queue(a, r)[0]| == SegLen(c.n, Kind(j))
  {
    var s := run[|run| - 1];
    RunsAreSafe(c, modes, goal, run);
    var p := s.ranks[r];
    RecvWire(c, modes, goal, s, r, second,
             Receiving(c.n, p, second, s.Queue(From(c, r, p.stream[0], second), r)[0]));
  }

  /** Conservative mode never has more than one op on the stream, and none when the host enqueues the
      next; stream-ordered mode has at most the four of one exchange. */
  lemma StreamBound(c: Case, modes: Modes, goal: nat, run: seq<System>, r: nat)
    requires IsRun(c, modes, goal, run) && r < c.l.size
    ensures var s := run[|run| - 1];
            |s.ranks| == c.l.size &&
            var p := s.ranks[r];
            var y := modes(r, p.k);
            && |p.stream| <= (if y.ordered then 4 else 1)
            && (!y.ordered && p.op < 4 && p.at < ChunkLen(y, p.op) && InstrAt(y, p.op, p.at).Enqueue? ==> p.stream == [])
  {
    RunsAreSafe(c, modes, goal, run);
    assert RankAt(c, modes, goal, run[|run| - 1], r);
  }

  // ----- progress

  ghost predicate Least(c: Case, modes: Modes, s: System, r: nat, k: nat)
    requires r < k <= |s.ranks|
  {
    forall q: nat | q < k :: AtMost(modes, s, r, q)
  }

  ghost predicate AtMost(modes: Modes, s: System, r: nat, q: nat)
    requires r < |s.ranks| && q < |s.ranks|
  {
    s.ranks[r].Done(modes(r, s.ranks[r].k)) <= s.ranks[q].Done(modes(q, s.ranks[q].k))
  }

  lemma {:induction false} LeastAdvanced(c: Case, modes: Modes, s: System, k: nat) returns (r: nat)
    requires 0 < k <= |s.ranks|
    ensures r < k && Least(c, modes, s, r, k)
  {
    r := 0;
    if k > 1 {
      r := LeastAdvanced(c, modes, s, k - 1);
      var l := k - 1;
      if !AtMost(modes, s, r, l) {
        forall q: nat | q < k
          ensures AtMost(modes, s, l, q)
        {
          assert q < l ==> AtMost(modes, s, r, q);
        }
        r := l;
      }
    }
  }

  /** A rank whose stream is empty can always step, unless it has returned from its last exchange. */
  lemma IdleDevice(c: Case, modes: Modes, goal: nat, s: System, r: nat)
    requires Inv(c, modes, goal, s) && r < c.l.size && s.ranks[r].stream == []
    ensures s.ranks[r].k < goal ==> Unbuffered(c, modes, goal, s, r, Host)
    ensures s.ranks[r].k == goal ==> s.ranks[r].Done(modes(r, goal)) == 4 * goal
    ensures s.ranks[r].k <= goal
  {
    assert RankAt(c, modes, goal, s, r);
  }

  /** What stages up to d have been issued by a device that is at d or beyond. */
  lemma ThroughFrom(d: nat, d': nat, h0: bool, h1: bool, j: nat)
    requires IsGroup(d) && d <= d' && j <= d && !Through(d', h0, h1, j)
    ensures d' == d && ((j + 1 == d && !h0) || (j == d && !h1))
  {
    GroupStages(d);
  }

  /** A rank in the least advanced group has posted all it can; if a message it waits for has
      not been sent, its source can step. */
  lemma Awaiting(c: Case, modes: Modes, goal: nat, s: System, r: nat, second: bool) returns (r': nat, act: Action)
    requires Inv(c, modes, goal, s) && r < c.l.size && Least(c, modes, s, r, c.l.size) && c.n > 0
    requires s.ranks[r].stream != [] && IsGroup(s.ranks[r].stream[0])
    requires if second then s.ranks[r].got0 && !s.ranks[r].got1 else !s.ranks[r].got0
    ensures Unbuffered(c, modes, goal, s, r', act)
  {
    var p := s.ranks[r];
    var d := p.stream[0];
    var j, a := HalfStage(d, second), From(c, r, d, second);
    var g, ga := Reach(modes, r, p), Reach(modes, a, s.ranks[a]);
    assert RankAt(c, modes, goal, s, r) && RankAt(c, modes, goal, s, a);
    StreamBelow(c, modes, goal, r, p);
    GroupStages(d);
    if Sent(ga, j) {
      SrcDest(c.l, Kind(j), a, r);
      PendingWire(c, goal, ga, g, a, r, j);
      assert WireAt(c, modes, goal, s, a, r);
      r', act := r, Recv(second);
    } else {
      assert AtMost(modes, s, r, a);
      ThroughFrom(d, ga.d, ga.sent0, ga.sent1, j);
      r' := a;
      act := NextSend(c, modes, goal, s, a);
    }
  }

  /** A rank that has reached a group but not sent all of it can step. */
  lemma NextSend(c: Case, modes: Modes, goal: nat, s: System, a: nat) returns (act: Action)
    requires Inv(c, modes, goal, s) && a < c.l.size
    requires var q := s.ranks[a]; var d := q.Done(modes(a, q.k));
             IsGroup(d) && d < 4 * goal && !(q.sent0 && q.sent1)
    ensures Unbuffered(c, modes, goal, s, a, act)
  {
    var q := s.ranks[a];
    if q.stream == [] {
      IdleDevice(c, modes, goal, s, a);
      act := Host;
    } else {
      act := Send(q.sent0);
    }
  }

  /** If a message of a least advanced rank is still on its way, its destination can step. */
  lemma Handed(c: Case, modes: Modes, goal: nat, s: System, r: nat, b: nat) returns (act: Action)
    requires Inv(c, modes, goal, s) && r < c.l.size && Least(c, modes, s, r, c.l.size) && c.n > 0 && b < c.l.size
    requires s.ranks[r].stream != [] && IsGroup(s.ranks[r].stream[0]) && s.Queue(r, b) != []
    ensures Unbuffered(c, modes, goal, s, b, act)
  {
    var p, q := s.ranks[r], s.ranks[b];
    var d := p.stream[0];
    var g, gb := Reach(modes, r, p), Reach(modes, b, q);
    assert RankAt(c, modes, goal, s, r) && RankAt(c, modes, goal, s, b);
    StreamBelow(c, modes, goal, r, p);
    assert WireAt(c, modes, goal, s, r, b);
    var i := WirePending(c, goal, g, gb, r, b);
    assert AtMost(modes, s, r, b);
    ThroughFrom(d, gb.d, gb.got0, gb.got1, i);
    if q.stream == [] {
      IdleDevice(c, modes, goal, s, b);
      act := Host;
    } else {
      GroupStages(d);
      SrcDest(c.l, Kind(i), r, b);
      act := Recv(i == d && (From(c, b, d, false) == r ==> q.got0));
    }
  }

  /** No deadlock, on any grid and in any assignment of modes: while some rank has not
      returned from its last exchange some rank can step, even if nothing is buffered. */
  lemma DeadlockFree(c: Case, modes: Modes, goal: nat, s: System) returns (r: nat, act: Action)
    requires Inv(c, modes, goal, s)
    requires exists q: nat :: q < c.l.size && s.ranks[q].k != goal
    ensures Unbuffered(c, modes, goal, s, r, act)
  {
    var q: nat :| q < c.l.size && s.ranks[q].k != goal;
    if s.ranks[q].stream == [] {
      IdleDevice(c, modes, goal, s, q);
      r, act := q, Host;
    } else if c.n == 0 {
      assert RankAt(c, modes, goal, s, q);
      assert CopyAt(s.ranks[q].stream, 0);
      r, act := q, CopyOp;
    } else {
      r := LeastAdvanced(c, modes, s, c.l.size);
      assert AtMost(modes, s, r, q) && RankAt(c, modes, goal, s, q);
      StreamBelow(c, modes, goal, q, s.ranks[q]);
      r, act := LeastCanStep(c, modes, goal, s, r);
    }
  }

  lemma LeastCanStep(c: Case, modes: Modes, goal: nat, s: System, r: nat) returns (r': nat, act: Action)
    requires Inv(c, modes, goal, s) && c.n > 0
    requires r < c.l.size && Least(c, modes, s, r, c.l.size)
    requires s.ranks[r].Done(modes(r, s.ranks[r].k)) < 4 * goal
    ensures Unbuffered(c, modes, goal, s, r', act)
  {
    var p := s.ranks[r];
    r' := r;
    if p.stream == [] {
      IdleDevice(c, modes, goal, s, r);
      act := Host;
    } else if !IsGroup(p.stream[0]) {
      act := CopyOp;
    } else if !(p.sent0 && p.sent1) {
      act := NextSend(c, modes, goal, s, r);
    } else if !(p.got0 && p.got1) {
      r', act := Awaiting(c, modes, goal, s, r, p.got0);
    } else {
      var b, b' := To(c, r, p.stream[0], false), To(c, r, p.stream[0], true);
      if s.Queue(r, b) != [] {
        r' := b;
        act := Handed(c, modes, goal, s, r, b);
      } else if s.Queue(r, b') != [] {
        r' := b';
        act := Handed(c, modes, goal, s, r, b');
      } else {
        act := Complete;
      }
    }
  }

  /** A run that can go no further has finished: every rank has returned from all exchanges,
      holds the words the exchange function prescribes, and no message is left over. */
  lemma CompleteRuns(c: Case, modes: Modes, goal: nat, run: seq<System>)
    requires IsRun(c, modes, goal, run) && Stuck(c, modes, goal, run[|run| - 1])
    ensures var s := run[|run| - 1];
            && |s.ranks| == c.l.size
            && (forall r: nat | r < c.l.size :: s.ranks[r].k == goal && s.ranks[r].bufs == After(c, 4 * goal)[r])
            && (forall a: nat, b: nat :: s.Queue(a, b) == [])
  {
    var s := run[|run| - 1];
    RunsAreSafe(c, modes, goal, run);
    if exists q: nat :: q < c.l.size && s.ranks[q].k != goal {
      var r, act := DeadlockFree(c, modes, goal, s);
    }
    assert forall q: nat | q < c.l.size :: s.ranks[q].k == goal;
    forall r: nat | r < c.l.size
      ensures s.ranks[r].bufs == After(c, 4 * goal)[r]
    {
      assert RankAt(c, modes, goal, s, r);
      BetweenExchanges(c, modes, goal, r, s.ranks[r]);
    }
    forall a: nat, b: nat
      ensures s.Queue(a, b) == []
    {
      assert WireAt(c, modes, goal, s, a, b);
      if a < c.l.size && b < c.l.size {
        AllReceived(c, modes, goal, s, a, b);
      }
    }
  }

  lemma AllReceived(c: Case, modes: Modes, goal: nat, s: System, a: nat, b: nat)
    requires Inv(c, modes, goal, s) && a < c.l.size && b < c.l.size
    requires s.ranks[b].k == goal
    ensures Wire(c, goal, Reach(modes, a, s.ranks[a]), Reach(modes, b, s.ranks[b]), a, b) == []
  {
    var ga, gb := Reach(modes, a, s.ranks[a]), Reach(modes, b, s.ranks[b]);
    if Wire(c, goal, ga, gb, a, b) != [] {
      var j := WirePending(c, goal, ga, gb, a, b);
      assert RankAt(c, modes, goal, s, b);
      AllGot(c, modes, goal, b, s.ranks[b], j);
    }
  }

  lemma AllGot(c: Case, modes: Modes, goal: nat, b: nat, p: Rank, j: nat)
    requires b < c.l.size && RankOk(c, modes, goal, b, p) && p.k == goal && j < 4 * goal
    ensures Got(Reach(modes, b, p), j)
  {
    KindOf(goal, 0);
    BetweenExchanges(c, modes, goal, b, p);
    assert p.Done(modes(b, p.k)) == 4 * goal;
  }

  /** The segments a group of rank a sends to rank b, in the order the sends are issued. */
  function SendsTo(l: Links, n: nat, t: nat, a: nat, b: nat): seq<(nat, nat)>
    requires a < l.size
  {
    (if Dest(l, t, a) == b then [(SegLo(n, t), SegLen(n, t))] else [])
    + (if Dest(l, t + 1, a) == b then [(SegLo(n, t + 1), SegLen(n, t + 1))] else [])
  }

  /** The segments the same group of rank b receives from rank a, in the order issued. */
  function ReceivesFrom(l: Links, n: nat, t: nat, b: nat, a: nat): seq<(nat, nat)>
    requires b < l.size
  {
    (if Src(l, t, b) == a then [(SegLo(n, t), SegLen(n, t))] else [])
    + (if Src(l, t + 1, b) == a then [(SegLo(n, t + 1), SegLen(n, t + 1))] else [])
  }

  /** Untagged pair matching, on any grid: position by position a's sends to b and b's
      receives from a agree in offset and length, also when opposite neighbours coincide. */
  lemma PairMatching(l: Links, n: nat, t: nat, a: nat, b: nat)
    requires a < l.size && b < l.size && (t == 0 || t == 2)
    ensures SendsTo(l, n, t, a, b) == ReceivesFrom(l, n, t, b, a)
  {
    SrcDest(l, t, a, b);
    SrcDest(l, t + 1, a, b);
  }
}
