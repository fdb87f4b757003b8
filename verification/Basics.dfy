/** Small functions that several components share. */
module Basics {

  function Min(a: int, b: int): int { if a <= b then a else b }

  /** A truth value as the printers write it. */
  function Flag(b: bool): string { if b then "true" else "false" }

  lemma FlagChars(b: bool)
    ensures ',' !in Flag(b) && ' ' !in Flag(b)
  {
  }

  // ----- Multiplication and division

  lemma Division(n: nat, k: nat)
    requires k > 0
    ensures n == k * (n / k) + n % k
  {
  }

  lemma MulMono(k: nat, a: nat, b: nat)
    ensures a <= b ==> k * a <= k * b
  {
    if a <= b {
      assert k * b == k * a + k * (b - a);
    }
  }

  lemma QuotientBelow(n: nat, k: nat, bound: nat)
    requires k > 0 && n < k * (bound + 1)
    ensures n / k <= bound
  {
    Division(n, k);
    MulMono(k, bound + 1, n / k);
  }

  lemma QuotientAbove(n: nat, k: nat, bound: nat)
    requires k > 0 && k * bound <= n
    ensures n / k >= bound
  {
    Division(n, k);
    if bound > 0 {
      MulMono(k, n / k, bound - 1);
      assert k * (bound - 1) == k * bound - k;
    }
  }

  lemma Remainder(n: nat, k: nat, q: nat, rest: nat)
    requires rest < k && n == k * q + rest
    ensures n / k == q && n % k == rest
  {
    assert k * (q + 1) == k * q + k;
    QuotientAbove(n, k, q);
    QuotientBelow(n, k, q);
    Division(n, k);
  }
}
