/** How many numbers below n have a property. */
module Counting {

  ghost function Where(n: nat, p: nat -> bool): set<nat> {
    set i: nat | i < n && p(i)
  }

  ghost function Number(n: nat, p: nat -> bool): nat { |Where(n, p)| }

  lemma NumberNext(n: nat, p: nat -> bool)
    ensures Number(n + 1, p) == Number(n, p) + (if p(n) then 1 else 0)
  {
    assert Where(n + 1, p) == Where(n, p) + (if p(n) then {n} else {});
  }

  lemma NumberSame(n: nat, p: nat -> bool, q: nat -> bool)
    requires forall i: nat | i < n :: p(i) == q(i)
    ensures Number(n, p) == Number(n, q)
  {
    assert Where(n, p) == Where(n, q);
  }
}
