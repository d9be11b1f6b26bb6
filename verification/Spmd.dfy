/** All ranks running the benchmark together. Every rank follows Control on its own; its clock
    readings, and so the times it contributes, are arbitrary. The n-th collective call of one
    rank meets the n-th collective call of every other rank; a rank leaves it some time after
    all have entered. */
module Spmd {
  import opened Reduction
  import opened Control

  /** left counts the collectives the rank has returned from; calls is everything it issued. */
  datatype Rank = Rank(ctl: Ctl, entered: bool, left: nat, calls: seq<Call>)

  /** results holds what the collectives so far returned, contributions what the ranks have
      brought to the current one. */
  datatype World = World(ranks: seq<Rank>, contributions: seq<seq<real>>, results: seq<seq<TimeRank>>)

  /** What the collective returns to everybody. */
  function Combine(call: Call, xs: seq<seq<real>>): seq<TimeRank>
    requires xs != []
  {
    seq(Elements(call), i requires 0 <= i < Elements(call) =>
          if call.Validate? || (call.Reduce? && call.op.MinCount?) then TimeRank(Min(Column(xs, i)), 0)
          else MaxLoc(Column(xs, i)))
  }

  /** The rank has entered a collective that not all have entered yet. */
  predicate Waiting(w: World, r: nat)
    requires r < |w.ranks|
  {
    w.ranks[r].entered && w.ranks[r].left == |w.results|
  }

  datatype Action = Local | Enter(x: seq<real>) | Leave | Resolve

  ghost predicate Enabled(cfg: Config, w: World, r: nat, act: Action)
    requires |w.contributions| == |w.ranks|
  {
    r < |w.ranks| &&
    var p := w.ranks[r];
    var call := Request(cfg, p.ctl);
    match act
    case Local => !p.entered && !Terminal(p.ctl) && !Collective(call)
    case Enter(x) => !p.entered && !Terminal(p.ctl) && Collective(call) && p.left == |w.results| && Contributes(p.ctl, call, x)
    case Leave => p.entered && p.left < |w.results|
    case Resolve => MatchingCall(cfg, w, call)
  }

  /** All ranks have entered the same call with the same number of elements. */
  ghost predicate MatchingCall(cfg: Config, w: World, call: Call)
    requires |w.contributions| == |w.ranks|
  {
    forall q: nat | q < |w.ranks| :: MatchesAt(cfg, w, call, q)
  }

  ghost predicate MatchesAt(cfg: Config, w: World, call: Call, q: nat)
    requires q < |w.ranks| == |w.contributions|
  {
    Waiting(w, q) && Request(cfg, w.ranks[q].ctl) == call && |w.contributions[q]| == Elements(call)
  }

  ghost function Do(cfg: Config, w: World, r: nat, act: Action): (w': World)
    requires |w.contributions| == |w.ranks| && Enabled(cfg, w, r, act)
    ensures |w'.contributions| == |w'.ranks| == |w.ranks|
  {
    var p := w.ranks[r];
    var call := Request(cfg, p.ctl);
    match act
    case Local =>
      w.(ranks := w.ranks[r := p.(ctl := Move(cfg, p.ctl, []), calls := p.calls + [call])])
    case Enter(x) =>
      w.(ranks := w.ranks[r := p.(entered := true, calls := p.calls + [call])],
         contributions := w.contributions[r := x])
    case Leave =>
      w.(ranks := w.ranks[r := p.(ctl := Move(cfg, p.ctl, w.results[p.left]), entered := false, left := p.left + 1)])
    case Resolve =>
      w.(results := w.results + [Combine(call, w.contributions)])
  }

  ghost predicate Step(cfg: Config, w: World, w': World) {
    |w.contributions| == |w.ranks| && exists r: nat, act :: Enabled(cfg, w, r, act) && w' == Do(cfg, w, r, act)
  }

  function Start(cfg: Config, size: nat): World {
    World(seq(size, _ => Rank(NextHalo(cfg, 0), false, 0, [])), seq(size, _ => []), [])
  }

  ghost predicate IsRun(cfg: Config, size: nat, run: seq<World>) {
    && |run| > 0 && run[0] == Start(cfg, size)
    && forall i | 0 <= i < |run| - 1 :: Step(cfg, run[i], run[i + 1])
  }

  // ----- the invariant

  /** Control never reaches the inconsistent-counts error, and a minimum of counts is the count. */
  predicate CountsAgree(c: Ctl) {
    !c.Inconsistent? && (c.CountMax? ==> c.least == c.kept as real)
  }

  /** A rank is somewhere in the segment that the results it has received prescribe. */
  ghost predicate RankOk(cfg: Config, w: World, r: nat)
    requires r < |w.ranks| == |w.contributions|
  {
    var p := w.ranks[r];
    && p.left <= |w.results|
    && Wait(cfg, p.ctl) == Wait(cfg, Epoch(cfg, w.results[..p.left]))
    && p.calls + (if p.entered then [] else Segment(cfg, p.ctl)) == Script(cfg, w.results[..p.left])
    && (p.entered ==> Wait(cfg, p.ctl) == p.ctl && !Terminal(p.ctl))
    && (p.left < |w.results| ==> p.entered && p.left + 1 == |w.results|)
    && (Waiting(w, r) ==> Contributes(p.ctl, Request(cfg, p.ctl), w.contributions[r]))
  }

  ghost predicate EpochOk(cfg: Config, w: World, k: nat)
    requires k <= |w.results|
  {
    CountsAgree(Wait(cfg, Epoch(cfg, w.results[..k])))
  }

  ghost predicate Inv(cfg: Config, w: World) {
    && ValidConfig(cfg)
    && |w.contributions| == |w.ranks|
    && (forall r: nat | r < |w.ranks| :: RankOk(cfg, w, r))
    && (forall k: nat | k <= |w.results| :: EpochOk(cfg, w, k))
  }

  lemma {:induction false} WaitMoves(cfg: Config, c: Ctl)
    ensures Wait(cfg, Wait(cfg, c)) == Wait(cfg, c)
    ensures !Terminal(c) && !Collective(Request(cfg, c)) ==>
              Wait(cfg, Move(cfg, c, [])) == Wait(cfg, c)
              && Segment(cfg, c) == [Request(cfg, c)] + Segment(cfg, Move(cfg, c, []))
  {
  }

  /** The other ranks of an updated world. */
  lemma OthersOk(cfg: Config, w: World, w': World, r: nat)
    requires Inv(cfg, w) && r < |w.ranks| == |w'.ranks| == |w'.contributions| && w'.results == w.results
    requires w'.ranks == w.ranks[r := w'.ranks[r]] && w'.contributions == w.contributions[r := w'.contributions[r]]
    requires RankOk(cfg, w', r)
    ensures Inv(cfg, w')
  {
    forall q: nat | q < |w'.ranks|
      ensures RankOk(cfg, w', q)
    {
      assert RankOk(cfg, w, q);
    }
    forall k: nat | k <= |w'.results|
      ensures EpochOk(cfg, w', k)
    {
      assert EpochOk(cfg, w, k);
    }
  }

  lemma LocalKeeps(cfg: Config, w: World, r: nat)
    requires Inv(cfg, w) && Enabled(cfg, w, r, Local)
    ensures Inv(cfg, Do(cfg, w, r, Local))
  {
    hide Move, Wait, Segment, Script, Epoch, EpochOk;
    assert RankOk(cfg, w, r);
    WaitMoves(cfg, w.ranks[r].ctl);
    OthersOk(cfg, w, Do(cfg, w, r, Local), r);
  }

  lemma EnterKeeps(cfg: Config, w: World, r: nat, x: seq<real>)
    requires Inv(cfg, w) && Enabled(cfg, w, r, Enter(x))
    ensures Inv(cfg, Do(cfg, w, r, Enter(x)))
  {
    assert RankOk(cfg, w, r);
    OthersOk(cfg, w, Do(cfg, w, r, Enter(x)), r);
  }

  /** What one more result adds to the script. */
  lemma NextEpoch(cfg: Config, results: seq<seq<TimeRank>>, k: nat)
    requires k < |results|
    ensures Epoch(cfg, results[..k + 1]) == Move(cfg, Wait(cfg, Epoch(cfg, results[..k])), results[k])
    ensures Script(cfg, results[..k + 1]) == Script(cfg, results[..k]) + Segment(cfg, Epoch(cfg, results[..k + 1]))
  {
    hide Move, Wait, Segment;
    assert results[..k + 1][..k] == results[..k];
  }

  lemma LeaveKeeps(cfg: Config, w: World, r: nat)
    requires Inv(cfg, w) && Enabled(cfg, w, r, Leave)
    ensures Inv(cfg, Do(cfg, w, r, Leave))
  {
    hide Move, Wait, Segment, Script, Epoch, EpochOk;
    assert RankOk(cfg, w, r);
    NextEpoch(cfg, w.results, w.ranks[r].left);
    OthersOk(cfg, w, Do(cfg, w, r, Leave), r);
  }

  /** Counts reduced over ranks that counted the same are that count. */
  lemma CombineCounts(c: Ctl, call: Call, xs: seq<seq<real>>)
    requires xs != [] && (c.CountMin? || c.CountMax?) && (call == Reduce(MinCount, 1) || call == Reduce(MaxCount, 1))
    requires forall q | 0 <= q < |xs| :: Contributes(c, call, xs[q])
    ensures First(Combine(call, xs)) == c.kept as real
  {
    MinMaxOfEqual(Column(xs, 0), c.kept as real);
  }

  /** When a collective completes, every rank stands at the same point. */
  lemma AllAtSamePoint(cfg: Config, w: World, q: nat)
    requires Inv(cfg, w) && q < |w.ranks| && Waiting(w, q)
    ensures w.ranks[q].ctl == Wait(cfg, Epoch(cfg, w.results))
    ensures Contributes(w.ranks[q].ctl, Request(cfg, w.ranks[q].ctl), w.contributions[q])
  {
    assert RankOk(cfg, w, q);
    assert w.results[..|w.results|] == w.results;
  }

  lemma NextEpochOk(cfg: Config, w: World, r: nat)
    requires Inv(cfg, w) && Enabled(cfg, w, r, Resolve)
    ensures var w' := Do(cfg, w, r, Resolve); CountsAgree(Wait(cfg, Epoch(cfg, w'.results)))
  {
    var call := Request(cfg, w.ranks[r].ctl);
    var c := w.ranks[r].ctl;
    assert MatchesAt(cfg, w, call, r);
    AllAtSamePoint(cfg, w, r);
    assert RankOk(cfg, w, r) && EpochOk(cfg, w, |w.results|);
    assert w.results[..|w.results|] == w.results;
    forall q | 0 <= q < |w.contributions|
      ensures Contributes(c, call, w.contributions[q])
    {
      assert MatchesAt(cfg, w, call, q);
      AllAtSamePoint(cfg, w, q);
    }
    var x := Combine(call, w.contributions);
    assert (w.results + [x])[..|w.results|] == w.results;
    if c.CountMin? || c.CountMax? {
      CombineCounts(c, call, w.contributions);
    }
    MoveAgrees(cfg, c, x);
  }

  lemma {:induction false} MoveAgrees(cfg: Config, c: Ctl, x: seq<TimeRank>)
    requires !Terminal(c) && Collective(Request(cfg, c)) && cfg.calibration > 0 && CountsAgree(c)
    requires c.CountMin? || c.CountMax? ==> First(x) == c.kept as real
    ensures CountsAgree(Wait(cfg, Move(cfg, c, x)))
  {
    var d := Move(cfg, c, x);
    LocalAgrees(cfg, d);
  }

  /** Local steps never touch counts. */
  lemma {:induction false} LocalAgrees(cfg: Config, c: Ctl)
    requires CountsAgree(c)
    ensures CountsAgree(Wait(cfg, c))
    decreases LocalLeft(cfg, c)
  {
    if !Terminal(c) && !Collective(Request(cfg, c)) {
      LocalAgrees(cfg, Move(cfg, c, []));
    }
  }

  lemma ResolveKeeps(cfg: Config, w: World, r: nat)
    requires Inv(cfg, w) && Enabled(cfg, w, r, Resolve)
    ensures Inv(cfg, Do(cfg, w, r, Resolve))
  {
    hide Move, Wait, Segment, Script, Epoch, Combine;
    var w' := Do(cfg, w, r, Resolve);
    var call := Request(cfg, w.ranks[r].ctl);
    NextEpochOk(cfg, w, r);
    forall q: nat | q < |w'.ranks|
      ensures RankOk(cfg, w', q)
    {
      assert RankOk(cfg, w, q) && MatchesAt(cfg, w, call, q);
      assert w'.results[..w.ranks[q].left] == w.results[..w.ranks[q].left];
    }
    forall k: nat | k <= |w'.results|
      ensures EpochOk(cfg, w', k)
    {
      if k <= |w.results| {
        assert EpochOk(cfg, w, k) && w'.results[..k] == w.results[..k];
      } else {
        assert w'.results[..k] == w'.results;
      }
    }
  }

  lemma StepKeeps(cfg: Config, w: World, w': World)
    requires Inv(cfg, w) && Step(cfg, w, w')
    ensures Inv(cfg, w') && |w'.ranks| == |w.ranks|
  {
    var r: nat, act :| Enabled(cfg, w, r, act) && w' == Do(cfg, w, r, act);
    match act {
      case Local => LocalKeeps(cfg, w, r);
      case Enter(x) => EnterKeeps(cfg, w, r, x);
      case Leave => LeaveKeeps(cfg, w, r);
      case Resolve => ResolveKeeps(cfg, w, r);
    }
  }

  lemma StartInv(cfg: Config, size: nat)
    requires ValidConfig(cfg)
    ensures Inv(cfg, Start(cfg, size))
  {
    LocalAgrees(cfg, NextHalo(cfg, 0));
    var w := Start(cfg, size);
    forall k: nat | k <= |w.results|
      ensures EpochOk(cfg, w, k)
    {
      assert w.results[..k] == [];
    }
  }

  lemma {:induction false} RunsAreSafe(cfg: Config, size: nat, run: seq<World>)
    requires ValidConfig(cfg) && IsRun(cfg, size, run)
    ensures Inv(cfg, run[|run| - 1]) && |run[|run| - 1].ranks| == size
  {
    var m := |run| - 1;
    if m == 0 {
      StartInv(cfg, size);
    } else {
      RunsAreSafe(cfg, size, run[..m]);
      assert Step(cfg, run[m - 1], run[m]);
      StepKeeps(cfg, run[m - 1], run[m]);
    }
  }

  // ----- the theorems

  /** SPMD alignment: in every reachable state, whatever the clocks read, two ranks that wait
      in a collective have issued the same calls with the same element counts, and stand at
      the same point of the program. */
  lemma WaitingAligned(cfg: Config, size: nat, run: seq<World>, q: nat, r: nat)
    requires ValidConfig(cfg) && IsRun(cfg, size, run) && q < size && r < size
    ensures var w := run[|run| - 1];
            && |w.ranks| == size
            && (Waiting(w, q) && Waiting(w, r) ==>
                  && w.ranks[q].ctl == w.ranks[r].ctl
                  && w.ranks[q].calls == w.ranks[r].calls
                  && Request(cfg, w.ranks[q].ctl) == Request(cfg, w.ranks[r].ctl))
  {
    var w := run[|run| - 1];
    RunsAreSafe(cfg, size, run);
    AtEpochEnd(cfg, w, q);
    AtEpochEnd(cfg, w, r);
  }

  /** A rank that waits, or is done, has issued exactly the script of all results so far. */
  lemma AtEpochEnd(cfg: Config, w: World, r: nat)
    requires Inv(cfg, w) && r < |w.ranks|
    ensures Waiting(w, r) || Terminal(w.ranks[r].ctl) ==>
              w.ranks[r].calls == Script(cfg, w.results) && w.ranks[r].ctl == Wait(cfg, Epoch(cfg, w.results))
  {
    assert RankOk(cfg, w, r);
    assert w.results[..|w.results|] == w.results;
    assert w.ranks[r].calls + [] == w.ranks[r].calls;
  }

  /** The calls of any two ranks never diverge: one list is a prefix of the other. */
  lemma CallsComparable(cfg: Config, size: nat, run: seq<World>, q: nat, r: nat)
    requires ValidConfig(cfg) && IsRun(cfg, size, run) && q < size && r < size
    ensures var w := run[|run| - 1];
            && |w.ranks| == size
            && (w.ranks[q].calls <= w.ranks[r].calls || w.ranks[r].calls <= w.ranks[q].calls)
  {
    var w := run[|run| - 1];
    RunsAreSafe(cfg, size, run);
    assert RankOk(cfg, w, q) && RankOk(cfg, w, r);
    ScriptPrefix(cfg, w.results, w.ranks[q].left);
    ScriptPrefix(cfg, w.results, w.ranks[r].left);
    PrefixesComparable(w.ranks[q].calls, w.ranks[r].calls, Script(cfg, w.results));
  }

  lemma PrefixesComparable(a: seq<Call>, b: seq<Call>, s: seq<Call>)
    requires a <= s && b <= s
    ensures a <= b || b <= a
  {
    if |a| <= |b| {
      assert b[..|a|] == s[..|a|] == a;
    } else {
      assert a[..|b|] == s[..|b|] == b;
    }
  }

  /** The check for inconsistent local counts never fires on any rank. */
  lemma CountsConsistent(cfg: Config, size: nat, run: seq<World>, r: nat)
    requires ValidConfig(cfg) && IsRun(cfg, size, run) && r < size
    ensures |run[|run| - 1].ranks| == size && !run[|run| - 1].ranks[r].ctl.Inconsistent?
  {
    var w := run[|run| - 1];
    RunsAreSafe(cfg, size, run);
    var p := w.ranks[r];
    assert RankOk(cfg, w, r) && EpochOk(cfg, w, p.left);
  }

  /** No deadlock: until every rank is done some rank can step, and then all ended alike. */
  lemma NeverStuck(cfg: Config, w: World) returns (r: nat, act: Action)
    requires Inv(cfg, w)
    requires exists q: nat :: q < |w.ranks| && !Terminal(w.ranks[q].ctl)
    ensures Enabled(cfg, w, r, act)
  {
    if q: nat :| q < |w.ranks| && w.ranks[q].entered && w.ranks[q].left < |w.results| {
      r, act := q, Leave;
    } else if q: nat :| q < |w.ranks| && !w.ranks[q].entered && !Terminal(w.ranks[q].ctl) {
      assert RankOk(cfg, w, q);
      r := q;
      var c := w.ranks[q].ctl;
      if Collective(Request(cfg, c)) {
        act := Enter(AnyContribution(c, Request(cfg, c)));
      } else {
        act := Local;
      }
    } else {
      var q: nat :| q < |w.ranks| && !Terminal(w.ranks[q].ctl);
      r, act := q, Resolve;
      assert RankOk(cfg, w, q);
      forall p: nat | p < |w.ranks|
        ensures MatchesAt(cfg, w, Request(cfg, w.ranks[q].ctl), p)
      {
        AllWaiting(cfg, w, q, p);
      }
    }
  }

  lemma AllWaiting(cfg: Config, w: World, q: nat, p: nat)
    requires Inv(cfg, w) && q < |w.ranks| && p < |w.ranks| && Waiting(w, q)
    requires w.ranks[p].entered ==> w.ranks[p].left >= |w.results|
    requires !w.ranks[p].entered ==> Terminal(w.ranks[p].ctl)
    ensures MatchesAt(cfg, w, Request(cfg, w.ranks[q].ctl), p)
  {
    assert RankOk(cfg, w, q) && RankOk(cfg, w, p);
    AllAtSamePoint(cfg, w, q);
    assert w.results[..|w.results|] == w.results;
  }

  /** Some contribution is always possible. */
  function AnyContribution(c: Ctl, call: Call): (x: seq<real>)
    ensures (call.Reduce? && (call.op.MinCount? || call.op.MaxCount?) ==> call.count == 1) ==> Contributes(c, call, x)
  {
    match call
    case Reduce(op, count) =>
      if op.MinCount? || op.MaxCount? then [if c.CountMin? || c.CountMax? then c.kept as real else 0.0]
      else seq(count, _ => 0.0)
    case Validate => [1.0]
    case _ => []
  }

  lemma EndAlike(cfg: Config, w: World, q: nat, r: nat)
    requires Inv(cfg, w) && q < |w.ranks| && r < |w.ranks|
    requires forall p: nat | p < |w.ranks| :: Terminal(w.ranks[p].ctl)
    ensures w.ranks[q].calls == w.ranks[r].calls && w.ranks[q].ctl == w.ranks[r].ctl
  {
    AtEpochEnd(cfg, w, q);
    AtEpochEnd(cfg, w, r);
  }
}
