/** Where the driver of each rank stands between setups, on all ranks together. */
module Setups {
  import opened Reduction
  import opened Control
  import Spmd

  /** What a rank has done: its setups, the halo lengths of the last two and the exchanges since. */
  datatype Progress = Progress(setups: nat, before: nat, halo: nat, made: nat)

  function ProgressOf(calls: seq<Call>): Progress {
    if calls == [] then Progress(0, 0, 0, 0)
    else
      var p := ProgressOf(calls[..|calls| - 1]);
      match calls[|calls| - 1]
      case Setup(halo) => Progress(p.setups + 1, p.halo, halo, 0)
      case Exchange => p.(made := p.made + 1)
      case _ => p
  }

  /** The rank is inside exchange. */
  predicate AtExchange(cfg: Config, p: Spmd.Rank) {
    !p.entered && Request(cfg, p.ctl).Exchange?
  }

  /** All calls before the current segment. */
  function Before(cfg: Config, results: seq<seq<TimeRank>>): seq<Call> {
    if results == [] then [] else Script(cfg, results[..|results| - 1])
  }

  predicate NoSetup(calls: seq<Call>) {
    forall i | 0 <= i < |calls| :: !calls[i].Setup?
  }

  lemma {:induction false} ProgressAdds(a: seq<Call>, b: seq<Call>)
    requires NoSetup(b)
    ensures var p, q := ProgressOf(a), ProgressOf(a + b);
            q.setups == p.setups && q.before == p.before && q.halo == p.halo && q.made >= p.made + (if Exchange in b then 1 else 0)
  {
    if b == [] {
      assert a + b == a;
    } else {
      ProgressAdds(a, b[..|b| - 1]);
      assert (a + b)[..|a + b| - 1] == a + b[..|b| - 1];
    }
  }

  lemma ProgressNext(calls: seq<Call>, call: Call)
    ensures var p := ProgressOf(calls);
            ProgressOf(calls + [call]) == match call
                                          case Setup(halo) => Progress(p.setups + 1, p.halo, halo, 0)
                                          case Exchange => p.(made := p.made + 1)
                                          case _ => p
  {
    assert (calls + [call])[..|calls|] == calls;
  }

  /** Only the first point of a segment can be a setup. */
  lemma {:induction false} SegmentOf(cfg: Config, c: Ctl)
    requires !c.BeginHalo?
    ensures NoSetup(Segment(cfg, c)) && (Request(cfg, c).Exchange? ==> Exchange in Segment(cfg, c))
    decreases LocalLeft(cfg, c)
  {
    if !Terminal(c) && !Collective(Request(cfg, c)) {
      SegmentOf(cfg, Move(cfg, c, []));
    }
  }

  /** Points from which the first collective is the barrier before calibration. */
  lemma {:induction false} BarrierFrom(cfg: Config, c: Ctl, h: nat)
    requires Wait(cfg, c) == CalibrationBarrier(h)
    ensures c == BeginHalo(h) || c == WarmUp(h) || c == CalibrationBarrier(h)
    decreases LocalLeft(cfg, c)
  {
    if !Terminal(c) && !Collective(Request(cfg, c)) {
      BarrierFrom(cfg, Move(cfg, c, []), h);
    }
  }

  lemma HaloSegment(cfg: Config, h: nat)
    ensures Segment(cfg, BeginHalo(h)) == [Request(cfg, BeginHalo(h)), Exchange, Barrier]
    ensures Segment(cfg, WarmUp(h)) == [Exchange, Barrier] && Segment(cfg, CalibrationBarrier(h)) == [Barrier]
    ensures Wait(cfg, BeginHalo(h)) == CalibrationBarrier(h)
  {
    assert Segment(cfg, CalibrationBarrier(h)) == [Barrier];
    assert Segment(cfg, WarmUp(h)) == [Exchange] + [Barrier];
    assert Wait(cfg, WarmUp(h)) == CalibrationBarrier(h);
  }

  /** Setup comes right after a collective, and only for listed halo lengths. */
  ghost predicate SegmentBegins(cfg: Config, c: Ctl) {
    !c.WarmUp? && !c.CalibrationBarrier? && (c.BeginHalo? ==> c.h < |cfg.halos|)
  }

  lemma AfterCollective(cfg: Config, c: Ctl, reply: seq<TimeRank>)
    requires Terminal(c) || Collective(Request(cfg, c))
    ensures SegmentBegins(cfg, Move(cfg, c, reply))
  {
    hide Kept, Iterations;
  }

  lemma SegmentStart(cfg: Config, results: seq<seq<TimeRank>>)
    ensures SegmentBegins(cfg, Epoch(cfg, results))
    ensures Script(cfg, results) == Before(cfg, results) + Segment(cfg, Epoch(cfg, results))
  {
    hide Segment, Move, Wait, Request;
    if results == [] {
      assert Before(cfg, results) + Segment(cfg, Epoch(cfg, [])) == Segment(cfg, Epoch(cfg, []));
    } else {
      var m := |results| - 1;
      AfterCollective(cfg, Wait(cfg, Epoch(cfg, results[..m])), results[m]);
    }
  }

  /** A rank has still to return from the last collective, or is in the current segment. */
  lemma Standing(cfg: Config, w: Spmd.World, q: nat)
    requires Spmd.Inv(cfg, w) && q < |w.ranks|
    ensures var p := w.ranks[q];
            var e := Epoch(cfg, w.results);
            || (p.entered && p.calls == Before(cfg, w.results) && w.results != [])
            || (p.left == |w.results|
                && Wait(cfg, p.ctl) == Wait(cfg, e)
                && p.calls + (if p.entered then [] else Segment(cfg, p.ctl)) == Before(cfg, w.results) + Segment(cfg, e))
    ensures w.ranks[q].entered ==> Collective(Request(cfg, w.ranks[q].ctl))
  {
    hide Segment, Move, Epoch, Script, Request;
    var p := w.ranks[q];
    assert Spmd.RankOk(cfg, w, q);
    SegmentStart(cfg, w.results);
    assert w.results[..|w.results|] == w.results;
    if p.left < |w.results| {
      assert p.calls + [] == p.calls;
    }
  }

  /** While the current segment begins with a setup, a rank either has made no call of it and is
      not inside exchange, or has made its setup; otherwise no rank is about to set up. */
  ghost predicate Placed(cfg: Config, w: Spmd.World, q: nat)
    requires q < |w.ranks|
  {
    var p := w.ranks[q];
    var e, before := Epoch(cfg, w.results), Before(cfg, w.results);
    var b, done := ProgressOf(before), ProgressOf(p.calls);
    if e.BeginHalo? then
      && e.h < |cfg.halos|
      && ((p.calls == before && !AtExchange(cfg, p) && (p.ctl.BeginHalo? ==> p.ctl == e))
          || (done.setups == b.setups + 1 && done.before == b.halo && done.halo == cfg.halos[e.h] && !p.ctl.BeginHalo?))
    else
      done.setups == b.setups && done.before == b.before && done.halo == b.halo && !p.ctl.BeginHalo?
  }

  lemma CallsPlaced(calls: seq<Call>, b: seq<Call>, halo: nat)
    requires calls == b + [Setup(halo)] || calls == b + [Setup(halo), Exchange] || calls == b + [Setup(halo), Exchange, Barrier]
    ensures ProgressOf(calls).setups == ProgressOf(b).setups + 1 && ProgressOf(calls).before == ProgressOf(b).halo && ProgressOf(calls).halo == halo
  {
    ProgressNext(b, Setup(halo));
    assert b + [Setup(halo), Exchange] == (b + [Setup(halo)]) + [Exchange];
    ProgressAdds(b + [Setup(halo)], [Exchange]);
    assert b + [Setup(halo), Exchange, Barrier] == (b + [Setup(halo)]) + [Exchange, Barrier];
    ProgressAdds(b + [Setup(halo)], [Exchange, Barrier]);
  }

  lemma Cancel(a: seq<Call>, b: seq<Call>, c: seq<Call>)
    requires a + c == b + c
    ensures a == b
  {
    assert |a| == |b|;
    forall i | 0 <= i < |a|
      ensures a[i] == b[i]
    {
      assert (a + c)[i] == (b + c)[i];
    }
  }

  /** A rank in a segment that begins with a setup. */
  lemma InHalo(cfg: Config, p: Spmd.Rank, h: nat, b: seq<Call>)
    requires h < |cfg.halos| && Wait(cfg, p.ctl) == CalibrationBarrier(h)
    requires p.calls + (if p.entered then [] else Segment(cfg, p.ctl)) == b + [Setup(cfg.halos[h]), Exchange, Barrier]
    requires p.entered ==> Collective(Request(cfg, p.ctl))
    ensures || (p.calls == b && p.ctl == BeginHalo(h) && !p.entered)
            || (ProgressOf(p.calls).setups == ProgressOf(b).setups + 1 && ProgressOf(p.calls).before == ProgressOf(b).halo
                && ProgressOf(p.calls).halo == cfg.halos[h]
                && !p.ctl.BeginHalo?)
  {
    hide Wait, Segment, ProgressOf;
    BarrierFrom(cfg, p.ctl, h);
    HaloSegment(cfg, h);
    var n := cfg.halos[h];
    if p.entered {
      assert p.calls + [] == p.calls;
      CallsPlaced(p.calls, b, n);
    } else if p.ctl == BeginHalo(h) {
      Cancel(p.calls, b, [Setup(n), Exchange, Barrier]);
    } else if p.ctl == WarmUp(h) {
      assert b + [Setup(n), Exchange, Barrier] == (b + [Setup(n)]) + [Exchange, Barrier];
      Cancel(p.calls, b + [Setup(n)], [Exchange, Barrier]);
      CallsPlaced(p.calls, b, n);
    } else {
      assert b + [Setup(n), Exchange, Barrier] == (b + [Setup(n), Exchange]) + [Barrier];
      Cancel(p.calls, b + [Setup(n), Exchange], [Barrier]);
      CallsPlaced(p.calls, b, n);
    }
  }

  lemma AlwaysPlaced(cfg: Config, w: Spmd.World, q: nat)
    requires Spmd.Inv(cfg, w) && q < |w.ranks|
    ensures Placed(cfg, w, q)
  {
    hide Wait, Segment, ProgressOf, Epoch, Script, Before, Spmd.Inv;
    var p := w.ranks[q];
    var e, b := Epoch(cfg, w.results), Before(cfg, w.results);
    Standing(cfg, w, q);
    SegmentStart(cfg, w.results);
    if e.BeginHalo? {
      HaloSegment(cfg, e.h);
      if !(p.entered && p.calls == b) {
        InHalo(cfg, p, e.h, b);
      }
    } else if !(p.entered && p.calls == b) {
      InSegment(cfg, p, e, b);
    }
  }

  /** A rank in any other segment. */
  lemma InSegment(cfg: Config, p: Spmd.Rank, e: Ctl, b: seq<Call>)
    requires SegmentBegins(cfg, e) && !e.BeginHalo? && Wait(cfg, p.ctl) == Wait(cfg, e)
    requires p.calls + (if p.entered then [] else Segment(cfg, p.ctl)) == b + Segment(cfg, e)
    requires p.entered ==> Collective(Request(cfg, p.ctl))
    ensures !p.ctl.BeginHalo?
    ensures ProgressOf(p.calls).setups == ProgressOf(b).setups && ProgressOf(p.calls).before == ProgressOf(b).before
    ensures ProgressOf(p.calls).halo == ProgressOf(b).halo
  {
    hide Wait, Segment, ProgressOf;
    if p.ctl.BeginHalo? {
      HaloSegment(cfg, p.ctl.h);
      BarrierFrom(cfg, e, p.ctl.h);
    }
    SegmentOf(cfg, e);
    SegmentOf(cfg, p.ctl);
    ProgressAdds(b, Segment(cfg, e));
    ProgressAdds(p.calls, if p.entered then [] else Segment(cfg, p.ctl));
  }

  /** While one rank is inside exchange no rank has made more setups, and those that have made
      fewer are not inside exchange. */
  lemma SetupsClose(cfg: Config, w: Spmd.World, q: nat, r: nat)
    requires Spmd.Inv(cfg, w) && q < |w.ranks| && r < |w.ranks|
    ensures var a, b := ProgressOf(w.ranks[q].calls), ProgressOf(w.ranks[r].calls);
            && a.setups <= b.setups + 1
            && (a.setups == b.setups ==> a.halo == b.halo && a.before == b.before)
            && (a.setups > b.setups ==> !AtExchange(cfg, w.ranks[r]))
  {
    hide Spmd.Inv, ProgressOf, AtExchange, Epoch, Before;
    AlwaysPlaced(cfg, w, q);
    AlwaysPlaced(cfg, w, r);
  }

  /** When a rank is about to set up, the others have made the same calls or are one setup ahead. */
  lemma MeetAtSetup(cfg: Config, w: Spmd.World, q: nat, r: nat)
    requires Spmd.Inv(cfg, w) && q < |w.ranks| && r < |w.ranks| && w.ranks[r].ctl.BeginHalo?
    ensures var a, h := ProgressOf(w.ranks[q].calls), w.ranks[r].ctl.h;
            && h < |cfg.halos|
            && ((w.ranks[q].calls == w.ranks[r].calls && !AtExchange(cfg, w.ranks[q]))
                || (a.setups == ProgressOf(w.ranks[r].calls).setups + 1 && a.before == ProgressOf(w.ranks[r].calls).halo && a.halo == cfg.halos[h]))
  {
    hide Spmd.Inv, ProgressOf, AtExchange, Epoch, Before;
    AlwaysPlaced(cfg, w, q);
    AlwaysPlaced(cfg, w, r);
  }

  /** Local calls are setups and exchanges. */
  lemma LocalCalls(cfg: Config, w: Spmd.World, r: nat)
    requires Spmd.Inv(cfg, w) && Spmd.Enabled(cfg, w, r, Spmd.Local)
    ensures (w.ranks[r].ctl.BeginHalo? && w.ranks[r].ctl.h < |cfg.halos|) || AtExchange(cfg, w.ranks[r])
  {
    hide Spmd.Inv;
    if w.ranks[r].ctl.BeginHalo? {
      MeetAtSetup(cfg, w, r, r);
    }
  }

  lemma SpmdKeeps(cfg: Config, w: Spmd.World, r: nat, a: Spmd.Action)
    requires Spmd.Inv(cfg, w) && Spmd.Enabled(cfg, w, r, a)
    ensures Spmd.Inv(cfg, Spmd.Do(cfg, w, r, a))
  {
    hide Spmd.Enabled, Spmd.Do;
    Spmd.StepKeeps(cfg, w, Spmd.Do(cfg, w, r, a));
  }
}
