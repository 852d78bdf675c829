module Arithmetic {
  lemma ProductGrows(a: nat, p: nat)
    requires p > 0
    ensures a <= p * a && a <= a * p
  {
    assert p * a == (p - 1) * a + a;
  }
}
