/** The messages under way between every two ranks of the RCCL exchange, and the invariant of
    the whole system. */
module RcclWires {
  import opened Topology
  import opened Halo
  import opened RcclStream
  import Backlog

  // ----- the messages between two ranks

  /** How far a rank's device is, and which halves of its current group it has issued. */
  datatype Front = Front(d: nat, sent0: bool, sent1: bool, got0: bool, got1: bool)

  function Reach(modes: Modes, r: nat, p: Rank): Front {
    Front(p.Done(modes(r, p.k)), p.sent0, p.sent1, p.got0, p.got1)
  }

  /** Stage j has been issued, when ops up to d are complete and of group d the halves h0, h1. */
  predicate Through(d: nat, h0: bool, h1: bool, j: nat) {
    if IsGroup(d) then j + 1 < d || (h0 && j + 1 == d) || (h1 && j == d) else j < d
  }

  predicate Sent(g: Front, j: nat) { Through(g.d, g.sent0, g.sent1, j) }

  predicate Got(g: Front, j: nat) { Through(g.d, g.got0, g.got1, j) }

  /** The message of stage j is on its way from rank a to rank b. */
  ghost predicate Pending(c: Case, ga: Front, gb: Front, a: nat, b: nat, j: nat)
    requires a < c.l.size
  {
    Dest(c.l, Kind(j), a) == b && Sent(ga, j) && !Got(gb, j)
  }

  ghost function PendingFrom(c: Case, ga: Front, gb: Front, a: nat, b: nat): nat -> bool
    requires a < c.l.size
  {
    (j: nat) => Pending(c, ga, gb, a, b, j)
  }

  ghost function MessagesOf(c: Case, a: nat): nat -> seq<Word>
    requires a < c.l.size
  {
    (j: nat) => Message(c, j, a)
  }

  /** Everything on its way from rank a to rank b, in stage order. */
  ghost function Wire(c: Case, goal: nat, ga: Front, gb: Front, a: nat, b: nat): seq<seq<Word>>
    requires a < c.l.size
  {
    if c.n == 0 then [] else Backlog.Of(PendingFrom(c, ga, gb, a, b), MessagesOf(c, a), 4 * goal)
  }

  /** Completing an op issues nothing new. */
  lemma ThroughNext(d: nat, j: nat)
    ensures Through(d, true, true, j) == (if IsGroup(d) then j <= d else j < d)
    ensures IsGroup(d) ==> Through(d + 1, false, false, j) == Through(d, true, true, j)
    ensures !IsGroup(d) ==> Through(d + 1, false, false, j) == Through(d, false, false, j)
  {
    if IsGroup(d) {
      GroupStages(d);
    } else {
      AfterCopy(d);
    }
  }

  lemma WireSame(c: Case, goal: nat, ga: Front, gb: Front, ga': Front, gb': Front, a: nat, b: nat)
    requires a < c.l.size
    requires c.n > 0 ==> forall j: nat :: Pending(c, ga, gb, a, b, j) == Pending(c, ga', gb', a, b, j)
    ensures Wire(c, goal, ga, gb, a, b) == Wire(c, goal, ga', gb', a, b)
  {
    if c.n > 0 {
      Backlog.Same(PendingFrom(c, ga, gb, a, b), PendingFrom(c, ga', gb', a, b),
                   MessagesOf(c, a), 4 * goal);
    }
  }

  /** Of two stages that carry words from a to b, the earlier one is sent first. */
  lemma SentInOrder(c: Case, g: Front, a: nat, i: nat, j: nat)
    requires a < c.l.size && i < j && Dest(c.l, Kind(i), a) == Dest(c.l, Kind(j), a)
    requires g.sent1 && To(c, a, g.d, false) == To(c, a, g.d, true) ==> g.sent0
    requires Sent(g, j)
    ensures Sent(g, i)
  {
    if IsGroup(g.d) {
      GroupStages(g.d);
    }
  }

  lemma WireSend(c: Case, goal: nat, g: Front, g': Front, gb: Front, a: nat, b: nat, j: nat)
    requires a < c.l.size && c.n > 0 && j < 4 * goal && Dest(c.l, Kind(j), a) == b
    requires forall i: nat :: Sent(g', i) == (Sent(g, i) || i == j)
    requires !Got(gb, j)
    requires forall i: nat | Dest(c.l, Kind(i), a) == b && Sent(g, i) :: i < j
    ensures Wire(c, goal, g', gb, a, b) == Wire(c, goal, g, gb, a, b) + [Message(c, j, a)]
  {
    Backlog.Join(PendingFrom(c, g, gb, a, b), PendingFrom(c, g', gb, a, b),
                 MessagesOf(c, a), 4 * goal, j);
  }

  lemma WireRecv(c: Case, goal: nat, ga: Front, g: Front, g': Front, a: nat, b: nat, j: nat)
    requires a < c.l.size && c.n > 0 && j < 4 * goal && Dest(c.l, Kind(j), a) == b && Sent(ga, j) && !Got(g, j)
    requires forall i: nat :: Got(g', i) == (Got(g, i) || i == j)
    requires forall i: nat | i < j && Dest(c.l, Kind(i), a) == b :: Got(g, i)
    ensures Wire(c, goal, ga, g, a, b) == [Message(c, j, a)] + Wire(c, goal, ga, g', a, b)
  {
    Backlog.Leave(PendingFrom(c, ga, g, a, b), PendingFrom(c, ga, g', a, b),
                  MessagesOf(c, a), 4 * goal, j);
  }

  /** Something on the wire means some stage is pending, and the other way round. */
  lemma WirePending(c: Case, goal: nat, ga: Front, gb: Front, a: nat, b: nat) returns (j: nat)
    requires a < c.l.size && Wire(c, goal, ga, gb, a, b) != []
    ensures j < 4 * goal && Pending(c, ga, gb, a, b, j)
  {
    if forall i: nat | i < 4 * goal :: !Pending(c, ga, gb, a, b, i) {
      Backlog.None(PendingFrom(c, ga, gb, a, b), MessagesOf(c, a), 4 * goal);
    }
    j :| j < 4 * goal && Pending(c, ga, gb, a, b, j);
  }

  lemma PendingWire(c: Case, goal: nat, ga: Front, gb: Front, a: nat, b: nat, j: nat)
    requires a < c.l.size && c.n > 0 && j < 4 * goal && Pending(c, ga, gb, a, b, j)
    ensures Wire(c, goal, ga, gb, a, b) != []
  {
    Backlog.Some(PendingFrom(c, ga, gb, a, b), MessagesOf(c, a), 4 * goal, j);
  }

  // ----- the invariant

  ghost predicate RankAt(c: Case, modes: Modes, goal: nat, s: System, r: nat)
    requires r < |s.ranks| == c.l.size
  {
    RankOk(c, modes, goal, r, s.ranks[r])
  }

  /** Rank b has not received the message of stage j before it was sent. */
  ghost predicate SentFirst(c: Case, modes: Modes, s: System, b: nat, j: nat)
    requires b < |s.ranks| == c.l.size
  {
    var a := Src(c.l, Kind(j), b);
    Got(Reach(modes, b, s.ranks[b]), j) ==> Sent(Reach(modes, a, s.ranks[a]), j)
  }

  ghost predicate WireAt(c: Case, modes: Modes, goal: nat, s: System, a: nat, b: nat)
    requires |s.ranks| == c.l.size
  {
    s.Queue(a, b) == if a < c.l.size && b < c.l.size
                     then Wire(c, goal, Reach(modes, a, s.ranks[a]), Reach(modes, b, s.ranks[b]), a, b)
                     else []
  }

  ghost predicate Inv(c: Case, modes: Modes, goal: nat, s: System) {
    && |s.ranks| == c.l.size
    && (forall r: nat | r < c.l.size :: RankAt(c, modes, goal, s, r))
    && (c.n > 0 ==> forall b: nat, j: nat | b < c.l.size :: SentFirst(c, modes, s, b, j))
    && (forall a: nat, b: nat :: WireAt(c, modes, goal, s, a, b))
  }

  /** The rank of an updated system. */
  lemma RanksKept(c: Case, modes: Modes, goal: nat, s: System, s': System, r: nat)
    requires Inv(c, modes, goal, s) && r < c.l.size && |s'.ranks| == |s.ranks|
    requires s'.ranks == s.ranks[r := s'.ranks[r]] && RankOk(c, modes, goal, r, s'.ranks[r])
    ensures forall q: nat | q < c.l.size :: RankAt(c, modes, goal, s', q)
  {
    forall q: nat | q < c.l.size
      ensures RankAt(c, modes, goal, s', q)
    {
      assert RankAt(c, modes, goal, s, q);
    }
  }

  ghost predicate SameReach(g: Front, g': Front) {
    forall j: nat :: SameAt(g, g', j)
  }

  ghost predicate SameAt(g: Front, g': Front, j: nat) {
    Sent(g', j) == Sent(g, j) && Got(g', j) == Got(g, j)
  }

  /** A step of rank r that issues nothing keeps every message where it is. */
  lemma QuietKeeps(c: Case, modes: Modes, goal: nat, s: System, r: nat, p': Rank)
    requires Inv(c, modes, goal, s) && r < c.l.size && RankOk(c, modes, goal, r, p')
    requires c.n > 0 ==> SameReach(Reach(modes, r, s.ranks[r]), Reach(modes, r, p'))
    ensures Inv(c, modes, goal, s.(ranks := s.ranks[r := p']))
  {
    var s' := s.(ranks := s.ranks[r := p']);
    RanksKept(c, modes, goal, s, s', r);
    if c.n > 0 {
      forall b: nat, j: nat | b < c.l.size
        ensures SentFirst(c, modes, s', b, j)
      {
        assert SentFirst(c, modes, s, b, j);
        assert SameAt(Reach(modes, r, s.ranks[r]), Reach(modes, r, p'), j);
      }
    }
    forall a: nat, b: nat
      ensures WireAt(c, modes, goal, s', a, b)
    {
      assert WireAt(c, modes, goal, s, a, b);
      if a < c.l.size && b < c.l.size {
        QuietWire(c, modes, goal, s, r, p', a, b);
      }
    }
  }

  lemma QuietWire(c: Case, modes: Modes, goal: nat, s: System, r: nat, p': Rank, a: nat, b: nat)
    requires |s.ranks| == c.l.size && r < c.l.size && a < c.l.size && b < c.l.size
    requires c.n > 0 ==> SameReach(Reach(modes, r, s.ranks[r]), Reach(modes, r, p'))
    ensures var s' := s.(ranks := s.ranks[r := p']);
            Wire(c, goal, Reach(modes, a, s'.ranks[a]), Reach(modes, b, s'.ranks[b]), a, b) ==
            Wire(c, goal, Reach(modes, a, s.ranks[a]), Reach(modes, b, s.ranks[b]), a, b)
  {
    var s' := s.(ranks := s.ranks[r := p']);
    var ga, gb := Reach(modes, a, s.ranks[a]), Reach(modes, b, s.ranks[b]);
    var ga', gb' := Reach(modes, a, s'.ranks[a]), Reach(modes, b, s'.ranks[b]);
    if c.n > 0 {
      forall j: nat
        ensures Pending(c, ga, gb, a, b, j) == Pending(c, ga', gb', a, b, j)
      {
        assert SameAt(Reach(modes, r, s.ranks[r]), Reach(modes, r, p'), j);
      }
    }
    WireSame(c, goal, ga, gb, ga', gb', a, b);
  }

  lemma HostReach(c: Case, modes: Modes, goal: nat, r: nat, p: Rank)
    requires r < c.l.size && RankOk(c, modes, goal, r, p)
    requires p.k < goal && (AtSync(modes(r, p.k), p) ==> p.stream == [])
    ensures var p' := HostStep(c.n, modes(r, p.k), p);
            RankOk(c, modes, goal, r, p') && (c.n > 0 ==> SameReach(Reach(modes, r, p), Reach(modes, r, p')))
  {
    HostKeeps(c, modes, goal, r, p);
    var g, g' := Reach(modes, r, p), Reach(modes, r, HostStep(c.n, modes(r, p.k), p));
    if c.n > 0 {
      assert g' == g;
      assert forall j: nat :: SameAt(g, g, j);
    }
  }

  lemma HostInv(c: Case, modes: Modes, goal: nat, s: System, r: nat)
    requires Inv(c, modes, goal, s) && Enabled(c, modes, goal, s, r, Host)
    ensures Inv(c, modes, goal, Do(c, modes, s, r, Host))
  {
    assert RankAt(c, modes, goal, s, r);
    var p := s.ranks[r];
    HostReach(c, modes, goal, r, p);
    QuietKeeps(c, modes, goal, s, r, HostStep(c.n, modes(r, p.k), p));
  }

  lemma NextFront(g: Front, g': Front)
    requires g' == Front(g.d + 1, false, false, false, false)
    requires g.sent0 == g.sent1 == g.got0 == g.got1 == IsGroup(g.d)
    ensures SameReach(g, g')
  {
    hide Through;
    forall j: nat
      ensures SameAt(g, g', j)
    {
      ThroughNext(g.d, j);
    }
  }

  /** Completing an op, copy or group, issues nothing new. */
  lemma PopReach(c: Case, modes: Modes, goal: nat, r: nat, p: Rank, bufs: Buffers)
    requires r < c.l.size && RankOk(c, modes, goal, r, p) && p.stream != []
    requires IsGroup(p.stream[0]) ==> p.sent0 && p.sent1 && p.got0 && p.got1
    ensures c.n > 0 ==> SameReach(Reach(modes, r, p), Reach(modes, r, Popping(p, bufs)))
  {
    hide HostOk, SameReach, InOrder, Expected;
    PopKeeps(c.n, goal, modes(r, p.k), p, bufs);
    if c.n > 0 {
      NextFront(Reach(modes, r, p), Reach(modes, r, Popping(p, bufs)));
    }
  }

  lemma CopyInv(c: Case, modes: Modes, goal: nat, s: System, r: nat)
    requires Inv(c, modes, goal, s) && Enabled(c, modes, goal, s, r, CopyOp)
    ensures Inv(c, modes, goal, Do(c, modes, s, r, CopyOp))
  {
    assert RankAt(c, modes, goal, s, r);
    var p := s.ranks[r];
    var b := Begin(p.bufs, Kind(p.stream[0]));
    CopyKeeps(c, modes, goal, r, p);
    PopReach(c, modes, goal, r, p, b);
    QuietKeeps(c, modes, goal, s, r, Popping(p, b));
  }

  lemma CompleteInv(c: Case, modes: Modes, goal: nat, s: System, r: nat)
    requires Inv(c, modes, goal, s) && Enabled(c, modes, goal, s, r, Complete)
    ensures Inv(c, modes, goal, Do(c, modes, s, r, Complete))
  {
    assert RankAt(c, modes, goal, s, r);
    var p := s.ranks[r];
    CompleteKeeps(c, modes, goal, r, p);
    PopReach(c, modes, goal, r, p, p.bufs);
    QuietKeeps(c, modes, goal, s, r, Popping(p, p.bufs));
  }

  /** Every op in a stream belongs to an exchange still to be finished. */
  lemma StreamBelow(c: Case, modes: Modes, goal: nat, r: nat, p: Rank)
    requires r < c.l.size && RankOk(c, modes, goal, r, p) && p.stream != [] && c.n > 0
    ensures p.stream[0] < 4 * goal && p.Done(modes(r, p.k)) == p.stream[0]
  {
    assert Follows(p.stream, p.Enq(modes(r, p.k)), 0);
  }

  lemma SendReach(modes: Modes, r: nat, p: Rank, second: bool)
    requires p.stream != [] && IsGroup(p.stream[0])
    ensures forall i: nat :: Sent(Reach(modes, r, Sending(p, second)), i)
                          == (Sent(Reach(modes, r, p), i) || i == HalfStage(p.stream[0], second))
    ensures forall i: nat :: Got(Reach(modes, r, Sending(p, second)), i) == Got(Reach(modes, r, p), i)
  {
    GroupStages(p.stream[0]);
  }

  lemma SendWire(c: Case, modes: Modes, goal: nat, s: System, r: nat, second: bool)
    requires Inv(c, modes, goal, s) && Enabled(c, modes, goal, s, r, Send(second)) && c.n > 0
    ensures var p := s.ranks[r];
            var j, b := HalfStage(p.stream[0], second), To(c, r, p.stream[0], second);
            var g, g' := Reach(modes, r, p), Reach(modes, r, Sending(p, second));
            var gb := if b == r then g else Reach(modes, b, s.ranks[b]);
            var gb' := if b == r then g' else gb;
            Wire(c, goal, g', gb', r, b) == Wire(c, goal, g, gb, r, b) + [Message(c, j, r)]
  {
    var p := s.ranks[r];
    var d := p.stream[0];
    var j, b := HalfStage(d, second), To(c, r, d, second);
    var g, g' := Reach(modes, r, p), Reach(modes, r, Sending(p, second));
    var gb := Reach(modes, b, s.ranks[b]);
    var gb' := if b == r then g' else gb;
    assert RankAt(c, modes, goal, s, r);
    StreamBelow(c, modes, goal, r, p);
    GroupStages(d);
    SendReach(modes, r, p, second);
    SrcDest(c.l, Kind(j), r, b);
    assert SentFirst(c, modes, s, b, j);
    forall i: nat | Dest(c.l, Kind(i), r) == b && Sent(g, i)
      ensures i < j
    {
      if i > j {
        SentInOrder(c, g, r, j, i);
      }
    }
    WireSend(c, goal, g, g', gb, r, b, j);
    WireSame(c, goal, g', gb, g', gb', r, b);
  }

  /** Wires other than the one a half uses are not affected by it. */
  lemma SendOther(c: Case, modes: Modes, goal: nat, s: System, r: nat, second: bool, a: nat, b: nat)
    requires |s.ranks| == c.l.size && r < c.l.size && a < c.l.size && b < c.l.size
    requires s.ranks[r].stream != [] && IsGroup(s.ranks[r].stream[0])
    requires a != r || b != To(c, r, s.ranks[r].stream[0], second)
    ensures var s' := s.(ranks := s.ranks[r := Sending(s.ranks[r], second)]);
            Wire(c, goal, Reach(modes, a, s'.ranks[a]), Reach(modes, b, s'.ranks[b]), a, b) ==
            Wire(c, goal, Reach(modes, a, s.ranks[a]), Reach(modes, b, s.ranks[b]), a, b)
  {
    var p := s.ranks[r];
    var s' := s.(ranks := s.ranks[r := Sending(p, second)]);
    SendReach(modes, r, p, second);
    WireSame(c, goal, Reach(modes, a, s.ranks[a]), Reach(modes, b, s.ranks[b]),
             Reach(modes, a, s'.ranks[a]), Reach(modes, b, s'.ranks[b]), a, b);
  }

  lemma SendSentFirst(c: Case, modes: Modes, s: System, r: nat, second: bool, b: nat, j: nat)
    requires |s.ranks| == c.l.size && r < c.l.size && b < c.l.size && SentFirst(c, modes, s, b, j)
    requires s.ranks[r].stream != [] && IsGroup(s.ranks[r].stream[0])
    ensures SentFirst(c, modes, Do(c, modes, s, r, Send(second)), b, j)
  {
    SendReach(modes, r, s.ranks[r], second);
  }

  lemma SendWires(c: Case, modes: Modes, goal: nat, s: System, r: nat, second: bool, a: nat, b: nat)
    requires Inv(c, modes, goal, s) && Enabled(c, modes, goal, s, r, Send(second))
    ensures WireAt(c, modes, goal, Do(c, modes, s, r, Send(second)), a, b)
  {
    assert WireAt(c, modes, goal, s, a, b);
    if a < c.l.size && b < c.l.size {
      if a == r && b == To(c, r, s.ranks[r].stream[0], second) {
        assert RankAt(c, modes, goal, s, r);
        SendKeeps(c, modes, goal, r, s.ranks[r], second);
        SendWire(c, modes, goal, s, r, second);
      } else {
        SendOther(c, modes, goal, s, r, second, a, b);
      }
    }
  }

  lemma SendInv(c: Case, modes: Modes, goal: nat, s: System, r: nat, second: bool)
    requires Inv(c, modes, goal, s) && Enabled(c, modes, goal, s, r, Send(second))
    ensures Inv(c, modes, goal, Do(c, modes, s, r, Send(second)))
  {
    hide SentFirst, WireAt, Outgoing, To, RankOk;
    var p := s.ranks[r];
    var s' := Do(c, modes, s, r, Send(second));
    assert RankAt(c, modes, goal, s, r);
    SendKeeps(c, modes, goal, r, p, second);
    RanksKept(c, modes, goal, s, s', r);
    forall b: nat, j: nat | b < c.l.size
      ensures SentFirst(c, modes, s', b, j)
    {
      SendSentFirst(c, modes, s, r, second, b, j);
    }
    forall a: nat, b: nat
      ensures WireAt(c, modes, goal, s', a, b)
    {
      SendWires(c, modes, goal, s, r, second, a, b);
    }
  }

  lemma RecvReach(modes: Modes, n: nat, r: nat, p: Rank, second: bool, msg: seq<Word>)
    requires p.stream != [] && IsGroup(p.stream[0])
    ensures forall i: nat :: Got(Reach(modes, r, Receiving(n, p, second, msg)), i)
                          == (Got(Reach(modes, r, p), i) || i == HalfStage(p.stream[0], second))
    ensures forall i: nat :: Sent(Reach(modes, r, Receiving(n, p, second, msg)), i) == Sent(Reach(modes, r, p), i)
  {
    GroupStages(p.stream[0]);
  }

  /** Before it waits for a half from rank a, rank r has received everything earlier from a. */
  lemma EarlierGot(c: Case, r: nat, g: Front, second: bool, i: nat)
    requires r < c.l.size && IsGroup(g.d)
    requires if second then !g.got1 && (From(c, r, g.d, false) == From(c, r, g.d, true) ==> g.got0) else !g.got0
    ensures var j := HalfStage(g.d, second);
            !Got(g, j) && (i < j && Src(c.l, Kind(i), r) == From(c, r, g.d, second) ==> Got(g, i))
  {
    GroupStages(g.d);
  }

  /** A waiting half finds exactly the message of its own stage at the head of the wire: the
      untagged matching never pairs an N message with a 2N slot. */
  lemma RecvHead(c: Case, modes: Modes, goal: nat, s: System, r: nat, second: bool)
    requires Inv(c, modes, goal, s) && Enabled(c, modes, goal, s, r, Recv(second))
    ensures var p := s.ranks[r];
            var j, a := HalfStage(p.stream[0], second), From(c, r, p.stream[0], second);
            && c.n > 0 && j < 4 * goal && Dest(c.l, Kind(j), a) == r
            && Sent(Reach(modes, a, s.ranks[a]), j) && !Got(Reach(modes, r, p), j)
            && (forall i: nat | i < j && Dest(c.l, Kind(i), a) == r :: Got(Reach(modes, r, p), i))
  {
    var p := s.ranks[r];
    var d := p.stream[0];
    var j, a := HalfStage(d, second), From(c, r, d, second);
    var g, ga := Reach(modes, r, p), Reach(modes, a, s.ranks[a]);
    assert RankAt(c, modes, goal, s, r) && WireAt(c, modes, goal, s, a, r);
    PopKeeps(c.n, goal, modes(r, p.k), p, p.bufs);
    StreamBelow(c, modes, goal, r, p);
    SrcDest(c.l, Kind(j), a, r);
    forall i: nat | Dest(c.l, Kind(i), a) == r
      ensures !Got(g, j) && (i < j ==> Got(g, i))
    {
      SrcDest(c.l, Kind(i), a, r);
      EarlierGot(c, r, g, second, i);
    }
    var i := WirePending(c, goal, ga, g, a, r);
    if i > j {
      assert RankAt(c, modes, goal, s, a);
      SentInOrder(c, ga, a, j, i);
    }
  }

  lemma RecvWire(c: Case, modes: Modes, goal: nat, s: System, r: nat, second: bool, p': Rank)
    requires Inv(c, modes, goal, s) && Enabled(c, modes, goal, s, r, Recv(second))
    requires p' == Receiving(c.n, s.ranks[r], second, s.Queue(From(c, r, s.ranks[r].stream[0], second), r)[0])
    ensures var d := s.ranks[r].stream[0];
            var j, a := HalfStage(d, second), From(c, r, d, second);
            var s' := s.(ranks := s.ranks[r := p']);
            s.Queue(a, r) == [Message(c, j, a)]
                             + Wire(c, goal, Reach(modes, a, s'.ranks[a]), Reach(modes, r, p'), a, r)
  {
    var p := s.ranks[r];
    var d := p.stream[0];
    var j, a := HalfStage(d, second), From(c, r, d, second);
    var ga, g, g' := Reach(modes, a, s.ranks[a]), Reach(modes, r, p), Reach(modes, r, p');
    var ga' := if a == r then g' else ga;
    RecvHead(c, modes, goal, s, r, second);
    RecvReach(modes, c.n, r, p, second, s.Queue(a, r)[0]);
    WireRecv(c, goal, ga, g, g', a, r, j);
    WireSame(c, goal, ga, g', ga', g', a, r);
    assert WireAt(c, modes, goal, s, a, r);
  }

  lemma RecvOther(c: Case, modes: Modes, goal: nat, s: System, r: nat, second: bool, p': Rank, a: nat, b: nat)
    requires |s.ranks| == c.l.size && r < c.l.size && a < c.l.size && b < c.l.size
    requires s.ranks[r].stream != [] && IsGroup(s.ranks[r].stream[0])
    requires exists msg :: p' == Receiving(c.n, s.ranks[r], second, msg)
    requires b != r || a != From(c, r, s.ranks[r].stream[0], second)
    ensures var s' := s.(ranks := s.ranks[r := p']);
            Wire(c, goal, Reach(modes, a, s'.ranks[a]), Reach(modes, b, s'.ranks[b]), a, b) ==
            Wire(c, goal, Reach(modes, a, s.ranks[a]), Reach(modes, b, s.ranks[b]), a, b)
  {
    var p := s.ranks[r];
    var s' := s.(ranks := s.ranks[r := p']);
    var j := HalfStage(p.stream[0], second);
    var msg :| p' == Receiving(c.n, s.ranks[r], second, msg);
    RecvReach(modes, c.n, r, p, second, msg);
    SrcDest(c.l, Kind(j), a, r);
    WireSame(c, goal, Reach(modes, a, s.ranks[a]), Reach(modes, b, s.ranks[b]),
             Reach(modes, a, s'.ranks[a]), Reach(modes, b, s'.ranks[b]), a, b);
  }

  lemma RecvSentFirst(c: Case, modes: Modes, goal: nat, s: System, r: nat, second: bool, b: nat, i: nat)
    requires Inv(c, modes, goal, s) && Enabled(c, modes, goal, s, r, Recv(second)) && b < c.l.size
    ensures SentFirst(c, modes, Do(c, modes, s, r, Recv(second)), b, i)
  {
    var p := s.ranks[r];
    var d := p.stream[0];
    RecvHead(c, modes, goal, s, r, second);
    RecvReach(modes, c.n, r, p, second, s.Queue(From(c, r, d, second), r)[0]);
    assert SentFirst(c, modes, s, b, i);
  }

  lemma RecvInv(c: Case, modes: Modes, goal: nat, s: System, r: nat, second: bool)
    requires Inv(c, modes, goal, s) && Enabled(c, modes, goal, s, r, Recv(second))
    ensures Inv(c, modes, goal, Do(c, modes, s, r, Recv(second)))
  {
    var p := s.ranks[r];
    var s' := Do(c, modes, s, r, Recv(second));
    var p' := s'.ranks[r];
    var from := From(c, r, p.stream[0], second);
    assert RankAt(c, modes, goal, s, r);
    RecvWire(c, modes, goal, s, r, second, p');
    RecvKeeps(c, modes, goal, r, p, second);
    RanksKept(c, modes, goal, s, s', r);
    forall b: nat, j: nat | b < c.l.size
      ensures SentFirst(c, modes, s', b, j)
    {
      RecvSentFirst(c, modes, goal, s, r, second, b, j);
    }
    forall a: nat, b: nat
      ensures WireAt(c, modes, goal, s', a, b)
    {
      assert WireAt(c, modes, goal, s, a, b);
      if a < c.l.size && b < c.l.size && (b != r || a != from) {
        RecvOther(c, modes, goal, s, r, second, p', a, b);
      }
    }
  }
}
