/** The integer arithmetic the pagination rules are built from: Ruby's
    Integer#/ (which rounds toward negative infinity) and the ceiling of an
    exact quotient (Float#ceil applied to a quotient computed without
    rounding error). Products are written with `Times`, repeated addition,
    so that every statement about page boundaries is linear arithmetic. */
module RubyArith {

  /** q * b, by repeated addition. */
  function Times(q: int, b: int): int
    decreases if q >= 0 then q else -q
  {
    if q == 0 then 0
    else if q > 0 then Times(q - 1, b) + b
    else Times(q + 1, b) - b
  }

  /** `Times` is multiplication. */
  lemma {:induction false} TimesIsProduct(q: int, b: int)
    ensures Times(q, b) == q * b
    decreases if q >= 0 then q else -q
  {
    if q > 0 {
      TimesIsProduct(q - 1, b);
    } else if q < 0 {
      TimesIsProduct(q + 1, b);
    }
  }

  lemma TimesStep(q: int, b: int)
    ensures Times(q + 1, b) == Times(q, b) + b
  {
  }

  lemma {:induction false} TimesNegate(q: int, b: int)
    ensures Times(q, -b) == -Times(q, b)
    ensures Times(-q, b) == -Times(q, b)
    decreases if q >= 0 then q else -q
  {
    if q > 0 {
      TimesNegate(q - 1, b);
    } else if q < 0 {
      TimesNegate(q + 1, b);
    }
  }

  /** For a positive b, q |-> q * b is strictly increasing. */
  lemma {:induction false} TimesStrictMono(x: int, y: int, b: int)
    requires b > 0 && x < y
    ensures Times(x, b) < Times(y, b)
    decreases y - x
  {
    if x + 1 < y {
      TimesStrictMono(x + 1, y, b);
    }
    TimesStep(x, b);
  }

  /** Ruby's Integer#/ : the quotient rounded toward negative infinity, for
      a divisor of either sign. */
  function FloorDiv(a: int, b: int): (q: int)
    requires b != 0
    ensures b > 0 ==> Times(q, b) <= a < Times(q, b) + b
    ensures b < 0 ==> Times(q, b) + b < a <= Times(q, b)
    ensures b > 0 && a >= 0 ==> q >= 0
    ensures b > 0 && a < 0 ==> q < 0
    ensures b > 0 && a < b ==> q <= 0
    decreases if b < 0 then 2 else if a < 0 then 1 else 0, if a < 0 then -a else a
  {
    if b < 0 then
      var q := FloorDiv(-a, -b);
      TimesNegate(q, b);
      q
    else if a < 0 then
      var q := FloorDiv(a + b, b) - 1;
      TimesStep(q, b);
      q
    else if a < b then 0
    else
      var q := FloorDiv(a - b, b) + 1;
      TimesStep(q - 1, b);
      q
  }

  /** For a positive divisor the floor quotient is the only q that places
      a in [q * b, q * b + b). */
  lemma FloorDivUnique(a: int, b: int, q: int)
    requires b > 0 && Times(q, b) <= a < Times(q, b) + b
    ensures FloorDiv(a, b) == q
  {
    var p := FloorDiv(a, b);
    if p < q {
      TimesStep(p, b);
      if p + 1 < q {
        TimesStrictMono(p + 1, q, b);
      }
    } else if q < p {
      TimesStep(q, b);
      if q + 1 < p {
        TimesStrictMono(q + 1, p, b);
      }
    }
  }

  /** For a positive divisor, Integer#/ agrees with Dafny's own division. */
  lemma FloorDivIsDivision(a: int, b: int)
    requires b > 0
    ensures FloorDiv(a, b) == a / b
  {
    var p := a / b;
    TimesIsProduct(p, b);
    FloorDivUnique(a, b, p);
  }

  /** The ceiling of the exact quotient a / b. */
  function CeilDiv(a: int, b: int): (c: int)
    requires b != 0
    ensures b > 0 ==> Times(c, b) - b < a <= Times(c, b)
    ensures b < 0 ==> Times(c, b) <= a < Times(c, b) - b
    ensures b > 0 && a > 0 ==> c > 0
    ensures b > 0 && a == 0 ==> c == 0
  {
    var q := FloorDiv(-a, b);
    TimesNegate(q, b);
    -q
  }
}
