/** Multiplication facts that the solver does not find by itself. */
module Arith {
  lemma {:induction false} MulMono(a: nat, b: nat, t: nat)
    requires a <= b
    ensures a * t <= b * t
    decreases b - a
  {
    if a < b {
      MulMono(a, b - 1, t);
      assert b * t == (b - 1) * t + t;
    }
  }
}
