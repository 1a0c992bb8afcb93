/** Finite sets of numbers: one beyond them all, and the least of them. */
module Finite {
  lemma {:induction false} Above(used: set<nat>) returns (n: nat)
    ensures forall u <- used :: u < n
    decreases used
  {
    n := 0;
    if used != {} {
      var x :| x in used;
      var rest := Above(used - {x});
      n := if rest > x then rest else x + 1;
      assert forall u <- used :: u == x || u in used - {x};
    }
  }

  lemma {:induction false} LeastExists(ns: set<nat>) returns (least: nat)
    requires ns != {}
    ensures least in ns && forall n <- ns :: least <= n
    decreases ns
  {
    var x :| x in ns;
    least := x;
    if ns != {x} {
      var rest := LeastExists(ns - {x});
      least := if rest < x then rest else x;
      assert forall n <- ns :: n == x || n in ns - {x};
    }
  }
}
