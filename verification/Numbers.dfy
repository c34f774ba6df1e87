/** Divisors, and the quotients and remainders of a deal in turn. */
module Numbers {

  ghost predicate Divides(d: nat, a: int) {
    exists q: int :: a == d * q
  }

  ghost predicate Coprime(a: nat, b: nat) {
    forall d: nat :: Divides(d, a) && Divides(d, b) ==> d <= 1
  }

  /** A quotient and a remainder that fit are the ones Dafny computes. */
  lemma Quotient(n: nat, q: int, r: nat, x: int)
    requires r < n && x == n * q + r
    ensures x / n == q && x % n == r
  {
    var d := x / n - q;
    assert x == n * (x / n) + x % n;
    assert n * d == n * (x / n) - n * q;
    Multiple(n, d);
  }

  lemma Multiple(n: nat, d: int)
    ensures d >= 1 ==> n * d >= n
    ensures d <= -1 ==> n * d + n <= 0
  {
  }

  lemma Recompose(n: nat, i: nat)
    requires n > 0
    ensures (i / n) * n + i % n == i
  {
  }

  lemma SameRemainder(n: nat, i: nat, j: nat)
    requires n > 0
    ensures i % n == j % n <==> Divides(n, j - i)
  {
    var qi, qj := i / n, j / n;
    assert i == n * qi + i % n && j == n * qj + j % n;
    if i % n == j % n {
      assert j - i == n * (qj - qi);
    }
    if Divides(n, j - i) {
      var q: int :| j - i == n * q;
      assert j == n * (qi + q) + i % n;
      Quotient(n, qi + q, i % n, j);
    }
  }

  /** A common divisor that is a combination of the two numbers. */
  lemma {:induction false} Bezout(a: nat, b: nat) returns (d: nat, x: int, y: int)
    ensures Divides(d, a) && Divides(d, b) && x * a + y * b == d
    ensures a > 0 || b > 0 ==> d > 0
    decreases b
  {
    if b == 0 {
      d, x, y := a, 1, 0;
      assert a == d * 1 && b == d * 0;
    } else {
      var q, r := a / b, a % b;
      var u, v;
      d, u, v := Bezout(b, r);
      x, y := v, u - v * q;
      var s: int :| b == d * s;
      var t: int :| r == d * t;
      Combine(a, b, q, r, d, s, t, u, v);
    }
  }

  lemma Combine(a: int, b: int, q: int, r: int, d: int, s: int, t: int, u: int, v: int)
    requires a == b * q + r && b == d * s && r == d * t && u * b + v * r == d
    ensures a == d * (s * q + t)
    ensures v * a + (u - v * q) * b == d
  {
    assert b * q == d * (s * q) by {
      assert d * (s * q) == (d * s) * q;
    }
    assert v * a == v * (b * q) + v * r;
    assert (v * q) * b == v * (b * q);
    assert (u - v * q) * b == u * b - (v * q) * b;
  }

  /** A number that two coprime numbers divide is divided by their product. */
  lemma CoprimeProduct(a: nat, b: nat, c: int)
    requires Coprime(a, b) && Divides(a, c) && Divides(b, c) && (a > 0 || b > 0)
    ensures Divides(a * b, c)
  {
    var d, x, y := Bezout(a, b);
    var s: int :| c == a * s;
    var t: int :| c == b * t;
    Expand(a, b, c, x, y, s, t);
  }

  lemma Expand(a: int, b: int, c: int, x: int, y: int, s: int, t: int)
    requires x * a + y * b == 1 && c == a * s && c == b * t
    ensures c == (a * b) * (x * t + y * s)
  {
    assert c == (x * a) * c + (y * b) * c by {
      assert (x * a + y * b) * c == (x * a) * c + (y * b) * c;
    }
    assert (x * a) * (b * t) == (a * b) * (x * t);
    assert (y * b) * (a * s) == (a * b) * (y * s);
    assert (a * b) * (x * t + y * s) == (a * b) * (x * t) + (a * b) * (y * s);
  }

  /** Two rounds of a deal in turn over n workers and f functions name the same worker and the same function. */
  predicate SamePair(n: nat, f: nat, i: nat, j: nat)
    requires n > 0 && f > 0
  {
    i % n == j % n && i % f == j % f
  }

  /** One full period of n * f rounds repeats no pair exactly when n and f are coprime. */
  lemma PairsNeverRepeat(n: nat, f: nat)
    requires n > 0 && f > 0
    ensures (forall i: nat, j: nat :: i < j < n * f ==> !SamePair(n, f, i, j)) <==> Coprime(n, f)
  {
    if Coprime(n, f) {
      forall i: nat, j: nat | i < j < n * f
        ensures !SamePair(n, f, i, j)
      {
        CoprimePair(n, f, i, j);
      }
    } else {
      var d: nat :| Divides(d, n) && Divides(d, f) && d > 1;
      RepeatedPair(n, f, d);
    }
  }

  lemma CoprimePair(n: nat, f: nat, i: nat, j: nat)
    requires n > 0 && f > 0 && Coprime(n, f) && i < j < n * f
    ensures !SamePair(n, f, i, j)
  {
    SameRemainder(n, i, j);
    SameRemainder(f, i, j);
    if SamePair(n, f, i, j) {
      CoprimeProduct(n, f, j - i);
      var q: int :| j - i == (n * f) * q;
      Multiple(n * f, q);
      assert false;
    }
  }

  lemma RepeatedPair(n: nat, f: nat, d: nat)
    requires n > 0 && f > 0 && Divides(d, n) && Divides(d, f) && d > 1
    ensures exists i: nat, j: nat :: i < j < n * f && SamePair(n, f, i, j)
  {
    var s: int :| n == d * s;
    var t: int :| f == d * t;
    Positive(d, s);
    Positive(d, t);
    var j := n * t;
    assert j == f * s by {
      assert (d * s) * t == (d * t) * s;
    }
    Positive(n, t);
    assert j < n * f by {
      assert f - t == (d - 1) * t;
      Multiple(t, d - 1);
      Multiple(n, f - t);
      assert n * (f - t) == n * f - n * t;
    }
    assert Divides(n, j - 0) && Divides(f, j - 0);
    SameRemainder(n, 0, j);
    SameRemainder(f, 0, j);
    assert SamePair(n, f, 0, j);
  }

  lemma Positive(d: nat, s: int)
    requires d > 0
    ensures d * s > 0 <==> s > 0
  {
  }
}
