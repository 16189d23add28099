/** Powers of two, factorials and division, shared by the table-driven code. */
module Numbers {

  function Pow2(e: nat): (h: nat)
    ensures h >= 1
  {
    if e == 0 then 1 else 2 * Pow2(e - 1)
  }

  function Factorial(n: nat): (f: nat)
    ensures f >= 1
  {
    if n == 0 then 1 else n * Factorial(n - 1)
  }

  lemma {:induction false} Pow2Grows(a: nat, b: nat)
    requires a <= b
    ensures Pow2(a) <= Pow2(b)
  {
    if a < b { Pow2Grows(a, b - 1); }
  }

  lemma {:induction false} FactorialGrows(a: nat, b: nat)
    requires a <= b
    ensures Factorial(a) <= Factorial(b)
  {
    if a < b { FactorialGrows(a, b - 1); }
  }

  lemma Scale(a: nat, b: nat, f: nat)
    requires a <= b
    ensures a * f + f <= (b + 1) * f
  {
  }

  /** Quotients and remainders are unique. */
  lemma SameDigits(f: nat, q: nat, r: nat, p: nat, s: nat)
    requires r < f && s < f && q * f + r == p * f + s
    ensures q == p && r == s
  {
    if q < p {
      Scale(q, p - 1, f);
    } else if p < q {
      Scale(p, q - 1, f);
    }
  }

  lemma DivisionSplits(b: nat, f: nat)
    requires f > 0
    ensures 0 <= b / f && (b / f) * f + b % f == b && b % f < f
  {
  }

  lemma ProductIsNat(a: nat, b: nat)
    ensures a * b >= 0
  {
  }

  lemma AddProduct(x: nat, y: nat, f: nat)
    ensures (x + y) * f == x * f + y * f
  {
  }
}
