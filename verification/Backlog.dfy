/** A first-in first-out backlog: the messages of the pending stages, oldest stage first. */
module Backlog {

  ghost function Of<M>(pending: nat -> bool, msg: nat -> M, hi: nat): seq<M> {
    if hi == 0 then [] else Of(pending, msg, hi - 1) + (if pending(hi - 1) then [msg(hi - 1)] else [])
  }

  lemma {:induction false} Same<M>(p: nat -> bool, q: nat -> bool, msg: nat -> M, hi: nat)
    requires forall j: nat | j < hi :: p(j) == q(j)
    ensures Of(p, msg, hi) == Of(q, msg, hi)
  {
    if hi > 0 {
      Same(p, q, msg, hi - 1);
    }
  }

  lemma {:induction false} None<M>(p: nat -> bool, msg: nat -> M, hi: nat)
    requires forall j: nat | j < hi :: !p(j)
    ensures Of(p, msg, hi) == []
  {
    if hi > 0 {
      None(p, msg, hi - 1);
    }
  }

  lemma {:induction false} Some<M>(p: nat -> bool, msg: nat -> M, hi: nat, j: nat)
    requires j < hi && p(j)
    ensures Of(p, msg, hi) != []
  {
    if j < hi - 1 {
      Some(p, msg, hi - 1, j);
    }
  }

  /** Whatever is in the backlog is the message of some pending stage. */
  lemma {:induction false} Contains<M>(pending: nat -> bool, msg: nat -> M, hi: nat, i: nat) returns (j: nat)
    requires i < |Of(pending, msg, hi)|
    ensures j < hi && pending(j) && Of(pending, msg, hi)[i] == msg(j)
  {
    if i < |Of(pending, msg, hi - 1)| {
      j := Contains(pending, msg, hi - 1, i);
    } else {
      j := hi - 1;
    }
  }

  /** A stage later than every pending one joins at the end. */
  lemma {:induction false} Join<M>(p: nat -> bool, q: nat -> bool, msg: nat -> M, hi: nat, last: nat)
    requires last < hi
    requires forall j: nat | j < hi :: q(j) == (p(j) || j == last)
    requires forall j: nat | last <= j < hi :: !p(j)
    ensures Of(q, msg, hi) == Of(p, msg, hi) + [msg(last)]
  {
    if last < hi - 1 {
      Join(p, q, msg, hi - 1, last);
      assert !q(hi - 1) && !p(hi - 1);
    } else {
      Same(p, q, msg, hi - 1);
      assert q(hi - 1) && !p(hi - 1);
    }
  }

  /** The earliest pending stage leaves at the front. */
  lemma {:induction false} Leave<M>(p: nat -> bool, q: nat -> bool, msg: nat -> M, hi: nat, first: nat)
    requires first < hi && p(first)
    requires forall j: nat | j < hi :: q(j) == (p(j) && j != first)
    requires forall j: nat | j < first :: !p(j)
    ensures Of(p, msg, hi) == [msg(first)] + Of(q, msg, hi)
  {
    if first < hi - 1 {
      Leave(p, q, msg, hi - 1, first);
      assert q(hi - 1) == p(hi - 1);
    } else {
      None(p, msg, hi - 1);
      None(q, msg, hi - 1);
      assert p(hi - 1) && !q(hi - 1);
    }
  }
}
