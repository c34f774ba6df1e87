/** IO/reactor/cal.hpp: equations, results and their evaluation. */
module Calculator {

  const INT_MIN := -0x8000_0000
  const INT_MAX := 0x7fff_ffff

  predicate IsInt(n: int) {
    INT_MIN <= n <= INT_MAX
  }

  type Int32 = n: int | IsInt(n)

  datatype ExitCode = NORMOL | DEVZERO | MODZERO | OPWRONG | UNKNOWN

  datatype Equation = Equation(x: Int32, y: Int32, op: char)

  datatype Result = Result(num: Int32, code: ExitCode)

  function Abs(n: int): nat {
    if n < 0 then -n else n
  }

  /** The division of C++, which truncates toward zero. */
  function Quotient(a: int, b: int): int
    requires b != 0
  {
    if (a < 0) == (b < 0) then Abs(a) / Abs(b) else -(Abs(a) / Abs(b))
  }

  function Remainder(a: int, b: int): int
    requires b != 0
  {
    if a < 0 then -(Abs(a) % Abs(b)) else Abs(a) % Abs(b)
  }

  lemma ProductGrows(q: nat, k: nat)
    requires q > 0
    ensures k <= q * k && (q > 1 ==> 2 * k <= q * k)
  {
    assert q * k == (q - 1) * k + k;
    if q > 1 {
      assert (q - 1) * k == (q - 2) * k + k;
    }
  }

  lemma NatDivision(p: nat, q: nat)
    requires q > 0
    ensures p == q * (p / q) + p % q && p % q < q
    ensures p / q <= p
    ensures q > 1 ==> 2 * (p / q) <= p
  {
    ProductGrows(q, p / q);
  }

  lemma SignsOfProduct(p: int, q: int)
    ensures (-p) * q == -(p * q) == p * (-q) && (-p) * (-q) == p * q
  {
  }

  /** Quotient and remainder are those of C++: they recombine; the remainder is small and never of the other sign. */
  lemma TruncatedDivision(a: int, b: int)
    requires b != 0
    ensures a == b * Quotient(a, b) + Remainder(a, b)
    ensures Abs(Remainder(a, b)) < Abs(b)
    ensures Remainder(a, b) == 0 || (Remainder(a, b) < 0) == (a < 0)
  {
    NatDivision(Abs(a), Abs(b));
    SignsOfProduct(Abs(b), Abs(a) / Abs(b));
  }

  /** The evaluation stays inside int: overflow is undefined in C++. */
  predicate IsDefined(e: Equation) {
    match e.op
    case '+' => IsInt(e.x + e.y)
    case '-' => IsInt(e.x - e.y)
    case '*' => IsInt(e.x * e.y)
    case '/' | '%' => !(e.x == INT_MIN && e.y == -1)
    case _ => true
  }

  function Evaluate(e: Equation): (r: Result)
    requires IsDefined(e)
  {
    match e.op
    case '+' => Result(e.x + e.y, NORMOL)
    case '-' => Result(e.x - e.y, NORMOL)
    case '*' => Result(e.x * e.y, NORMOL)
    case '/' =>
      if e.y == 0 then Result(0, DEVZERO)
      else
        assert IsInt(Quotient(e.x, e.y)) by { QuotientIsInt(e.x, e.y); }
        Result(Quotient(e.x, e.y), NORMOL)
    case '%' =>
      if e.y == 0 then Result(0, MODZERO)
      else
        assert IsInt(Remainder(e.x, e.y)) by { TruncatedDivision(e.x, e.y); }
        Result(Remainder(e.x, e.y), NORMOL)
    case _ => Result(0, OPWRONG)
  }

  lemma QuotientBounds(a: int, b: int)
    requires b != 0
    ensures Abs(Quotient(a, b)) <= Abs(a)
    ensures Abs(b) > 1 ==> 2 * Abs(Quotient(a, b)) <= Abs(a)
    ensures b == 1 ==> Quotient(a, b) == a
    ensures b == -1 ==> Quotient(a, b) == -a
  {
    NatDivision(Abs(a), Abs(b));
    assert Abs(Quotient(a, b)) == Abs(a) / Abs(b);
  }

  lemma QuotientIsInt(a: Int32, b: Int32)
    requires b != 0 && !(a == INT_MIN && b == -1)
    ensures IsInt(Quotient(a, b))
  {
    QuotientBounds(a, b);
    assert IsInt(a);
    var k := Quotient(a, b);
    assert -0x8000_0000 <= k <= 0x8000_0000;
  }

  /** Overflow is the one thing that makes an evaluation undefined: the exact result is not an int. */
  lemma DefinedMeans(e: Equation)
    ensures e.op == '+' ==> (IsDefined(e) <==> INT_MIN <= e.x + e.y <= INT_MAX)
    ensures e.op == '-' ==> (IsDefined(e) <==> INT_MIN <= e.x - e.y <= INT_MAX)
    ensures e.op == '*' ==> (IsDefined(e) <==> INT_MIN <= e.x * e.y <= INT_MAX)
    ensures e.op in {'/', '%'} ==> (IsDefined(e) <==> e.y == 0 || INT_MIN <= Quotient(e.x, e.y) <= INT_MAX)
    ensures e.op !in {'+', '-', '*', '/', '%'} ==> IsDefined(e)
  {
    if e.op in {'/', '%'} && e.y != 0 {
      QuotientBounds(e.x, e.y);
      if IsDefined(e) {
        QuotientIsInt(e.x, e.y);
      }
    }
  }

  /** There is one way to divide so that the rest is smaller than the divisor and not of the other sign than x. */
  lemma TruncationIsUnique(x: int, y: int, q: int, k: int)
    requires y != 0 && x == y * q + k && Abs(k) < Abs(y) && (k == 0 || (k < 0) == (x < 0))
    ensures q == Quotient(x, y) && k == Remainder(x, y)
  {
    TruncatedDivision(x, y);
    var d := q - Quotient(x, y);
    assert y * d == Remainder(x, y) - k by {
      assert y * d == y * q - y * Quotient(x, y);
    }
    SmallMultiple(y, d);
  }

  lemma SmallMultiple(y: int, d: int)
    ensures d != 0 ==> Abs(y * d) >= Abs(y)
    ensures d == 0 ==> y * d == 0
  {
    if d != 0 {
      SignsOfProduct(Abs(y), Abs(d));
      ProductGrows(Abs(d), Abs(y));
    }
  }

  /**
    An error code says which guard was hit. Without one the number is the sum, the difference, the product, or the
    quotient or the rest of the division that truncates toward zero.
  */
  lemma EvaluateMeans(e: Equation)
    requires IsDefined(e)
    ensures var r := Evaluate(e);
      && (r.code == DEVZERO <==> e.op == '/' && e.y == 0)
      && (r.code == MODZERO <==> e.op == '%' && e.y == 0)
      && (r.code == OPWRONG <==> e.op !in {'+', '-', '*', '/', '%'})
      && r.code != UNKNOWN
      && (r.code != NORMOL ==> r.num == 0)
    ensures e.op == '+' ==> Evaluate(e).num == e.x + e.y
    ensures e.op == '-' ==> Evaluate(e).num == e.x - e.y
    ensures e.op == '*' ==> Evaluate(e).num == e.x * e.y
    ensures e.op == '/' && e.y != 0 ==>
      var k := e.x - e.y * Evaluate(e).num; Abs(k) < Abs(e.y) && (k == 0 || (k < 0) == (e.x < 0))
    ensures e.op == '%' && e.y != 0 ==>
      var k := Evaluate(e).num;
      && IsDefined(e.(op := '/')) && e.x == e.y * Evaluate(e.(op := '/')).num + k
      && Abs(k) < Abs(e.y) && (k == 0 || (k < 0) == (e.x < 0))
  {
    if e.op in {'/', '%'} && e.y != 0 {
      TruncatedDivision(e.x, e.y);
    }
  }
}
