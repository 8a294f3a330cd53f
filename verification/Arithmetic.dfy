/** The few facts about quotients and products that the offset arithmetic rests on. */
module Arithmetic {

  function Min(a: nat, b: nat): nat {
    if a < b then a else b
  }

  /** Integer division of naturals, as Rust's `/` on unsigned operands. */
  function Quotient(a: nat, b: nat): (q: nat)
    requires b > 0
    ensures q * b <= a < q * b + b
  {
    a / b
  }

  /** Rust's `%` on unsigned operands. */
  function Remainder(a: nat, b: nat): (r: nat)
    requires b > 0
    ensures r < b && a == Quotient(a, b) * b + r
  {
    a % b
  }

  lemma MulMonotone(a: nat, b: nat, d: nat)
    requires a <= b
    ensures a * d <= b * d
  {
  }

  lemma Distribute(a: int, b: int, d: int)
    ensures (a + b) * d == a * d + b * d
    ensures d * (a + b) == d * a + d * b
  {
  }

  lemma MulGap(a: nat, b: nat, d: nat)
    ensures a < b ==> a * d + d <= b * d
  {
    if a < b {
      MulMonotone(a + 1, b, d);
      Distribute(a, 1, d);
    }
  }

  /** Quotient and remainder are determined by the equation they satisfy. */
  lemma DivUnique(x: nat, d: nat, q: nat, r: nat)
    requires d > 0 && x == q * d + r && r < d
    ensures Quotient(x, d) == q && Remainder(x, d) == r
  {
    var p := Quotient(x, d);
    MulGap(p, q, d);
    MulGap(q, p, d);
  }
}
