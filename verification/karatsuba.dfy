/** Karatsuba multiplication on decimal splits, with ordinary multiplication
    as its reference. */
module Karatsuba {

  function Pow10(k: nat): (p: nat)
    ensures p >= 1
    ensures k > 0 ==> p >= 10
  {
    if k == 0 then 1 else 10 * Pow10(k - 1)
  }

  lemma {:induction false} Pow10Add(i: nat, j: nat)
    ensures Pow10(i + j) == Pow10(i) * Pow10(j)
  {
    if i > 0 {
      Pow10Add(i - 1, j);
      assert Pow10(i + j) == 10 * Pow10(i - 1 + j);
    }
  }

  lemma {:induction false} Pow10Monotone(i: nat, j: nat)
    requires i <= j
    ensures Pow10(i) <= Pow10(j)
  {
    if i < j {
      Pow10Monotone(i, j - 1);
    }
  }

  function Max(a: int, b: int): int
  {
    if a >= b then a else b
  }

  /** `len(str(x))` for a non-negative `x`: the number of its decimal digits. */
  function NumDigits(x: nat): (k: nat)
    ensures k >= 1 && x < Pow10(k)
    ensures x > 0 ==> Pow10(k - 1) <= x
    ensures x < 10 <==> k == 1
  {
    if x < 10 then 1 else 1 + NumDigits(x / 10)
  }

  /** `m = n // 2` where `n` is the digit count of the longer operand: when both
      operands have at least two digits, `1 <= m < n`, and the longer operand
      is at least `10^m`, so its high part is nonzero. */
  function SplitPoint(x: nat, y: nat): (m: nat)
    requires x >= 10 && y >= 10
    ensures 1 <= m < Max(NumDigits(x), NumDigits(y))
    ensures x >= Pow10(m) || y >= Pow10(m)
  {
    var n := Max(NumDigits(x), NumDigits(y));
    var m := n / 2;
    Pow10Monotone(m, n - 1);
    m
  }

  lemma DivMod(x: nat, p: nat)
    requires p > 0
    ensures x == (x / p) * p + x % p && 0 <= x % p < p && x / p >= 0
  {
  }

  /** `(x // 10**m, x % 10**m)`: the high and low decimal parts of `x`. */
  function Split(x: nat, m: nat): (parts: (nat, nat))
    ensures x == parts.0 * Pow10(m) + parts.1
    ensures parts.1 < Pow10(m)
  {
    var p := Pow10(m);
    DivMod(x, p);
    (x / p, x % p)
  }

  /** Splitting off a high part never grows a number, and strictly shrinks it
      when the high part is nonzero. */
  lemma SplitShrinks(x: nat, m: nat)
    requires m >= 1
    ensures Split(x, m).0 + Split(x, m).1 <= x
    ensures Split(x, m).0 >= 1 ==> Split(x, m).0 + Split(x, m).1 < x
    ensures x >= 10 ==> Split(x, m).0 < x
    ensures x < Pow10(m) ==> Split(x, m).0 == 0
  {
  }

  /** The termination measure: the larger operand while both have two digits. */
  function Measure(x: int, y: int): nat
  {
    if x < 10 || y < 10 then 0 else Max(x, y)
  }

  /** The measure argument on the parts alone, free of multiplication. */
  lemma MeasureShrinks(x: int, y: int, p: int, a: nat, b: nat, c: nat, d: nat)
    requires x >= 10 && y >= 10 && b < p && d < p && (p <= x || p <= y)
    requires a + b <= x && (a >= 1 ==> a + b < x) && a < x && (x < p ==> a == 0)
    requires c + d <= y && (c >= 1 ==> c + d < y) && c < y && (y < p ==> c == 0)
    ensures Measure(a, c) < Measure(x, y)
    ensures Measure(b, d) < Measure(x, y)
    ensures Measure(a + b, c + d) < Measure(x, y)
  {
  }

  /** Each of the three recursive calls has a smaller larger operand. */
  lemma CallsShrink(x: int, y: int, m: nat)
    requires x >= 10 && y >= 10 && m == SplitPoint(x, y)
    ensures Measure(Split(x, m).0, Split(y, m).0) < Measure(x, y)
    ensures Measure(Split(x, m).1, Split(y, m).1) < Measure(x, y)
    ensures Measure(Split(x, m).0 + Split(x, m).1, Split(y, m).0 + Split(y, m).1) < Measure(x, y)
  {
    SplitShrinks(x, m);
    SplitShrinks(y, m);
    MeasureShrinks(x, y, Pow10(m), Split(x, m).0, Split(x, m).1, Split(y, m).0, Split(y, m).1);
  }

  /** The middle coefficient costs one product: (a+b)(c+d) - ac - bd = ad + bc. */
  lemma MiddleTerm(a: int, b: int, c: int, d: int)
    ensures (a + b) * (c + d) - a * c - b * d == a * d + b * c
  {
  }

  /** The documented recombination formula. */
  lemma Recombine(a: int, b: int, c: int, d: int, m: nat)
    ensures (a * Pow10(m) + b) * (c * Pow10(m) + d)
         == a * c * Pow10(2 * m) + (a * d + b * c) * Pow10(m) + b * d
  {
    var p := Pow10(m);
    Pow10Add(m, m);
    assert (a * p + b) * (c * p + d) == a * c * (p * p) + (a * d + b * c) * p + b * d;
  }

  /** With the three products correct, the recombined value is `x * y`. */
  lemma CombineCorrect(x: nat, y: nat, m: nat, ac: int, bd: int, sum: int)
    requires ac == Split(x, m).0 * Split(y, m).0
    requires bd == Split(x, m).1 * Split(y, m).1
    requires sum == (Split(x, m).0 + Split(x, m).1) * (Split(y, m).0 + Split(y, m).1)
    ensures ac * Pow10(2 * m) + (sum - ac - bd) * Pow10(m) + bd == x * y
  {
    var (a, b) := Split(x, m);
    var (c, d) := Split(y, m);
    MiddleTerm(a, b, c, d);
    Recombine(a, b, c, d, m);
  }

  /** `karatsuba(x, y)`: three recursive products on decimal halves. Inputs
      below ten, negative ones included, are multiplied directly. */
  function Karatsuba(x: int, y: int): (r: int)
    ensures r == x * y
    decreases Measure(x, y)
  {
    if x < 10 || y < 10 then x * y
    else
      var m := SplitPoint(x, y);
      var a := Split(x, m).0;
      var b := Split(x, m).1;
      var c := Split(y, m).0;
      var d := Split(y, m).1;
      CallsShrink(x, y, m);
      var ac := Karatsuba(a, c);
      var bd := Karatsuba(b, d);
      var sum := Karatsuba(a + b, c + d);
      var adPlusBc := sum - ac - bd;
      CombineCorrect(x, y, m, ac, bd, sum);
      ac * Pow10(2 * m) + adPlusBc * Pow10(m) + bd
  }

  /** `multiplicacao_tradicional(x, y)`, the reference product, which the demo
      checks Karatsuba against on every operand pair. */
  function Traditional(x: int, y: int): (r: int)
    ensures r == Karatsuba(x, y)
  {
    x * y
  }
}
