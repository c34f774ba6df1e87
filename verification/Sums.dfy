/** Sums of a weight over a sequence, and how one update changes them. */
module Sums {

  function Sum<X>(s: seq<X>, weight: X -> nat): nat
  {
    if |s| == 0 then 0 else weight(s[0]) + Sum(s[1..], weight)
  }

  lemma {:induction false} SumUpdate<X>(s: seq<X>, weight: X -> nat, i: nat, x: X)
    requires i < |s|
    ensures Sum(s[i := x], weight) + weight(s[i]) == Sum(s, weight) + weight(x)
  {
    if i == 0 {
      assert s[0 := x][1..] == s[1..];
    } else {
      SumUpdate(s[1..], weight, i - 1, x);
      assert s[i := x][1..] == s[1..][i - 1 := x];
    }
  }

  lemma {:induction false} SumAtLeast<X>(s: seq<X>, weight: X -> nat, i: nat)
    requires i < |s|
    ensures weight(s[i]) <= Sum(s, weight)
  {
    if i > 0 {
      SumAtLeast(s[1..], weight, i - 1);
    }
  }

  lemma {:induction false} SumAppend<X>(s: seq<X>, weight: X -> nat, x: X)
    ensures Sum(s + [x], weight) == Sum(s, weight) + weight(x)
  {
    if |s| > 0 {
      assert (s + [x])[1..] == s[1..] + [x];
      SumAppend(s[1..], weight, x);
    }
  }

  lemma {:induction false} SumCongruent<X>(s: seq<X>, f: X -> nat, g: X -> nat)
    requires forall i :: 0 <= i < |s| ==> f(s[i]) == g(s[i])
    ensures Sum(s, f) == Sum(s, g)
  {
    if |s| > 0 {
      assert forall i :: 0 <= i < |s[1..]| ==> s[1..][i] == s[i + 1];
      SumCongruent(s[1..], f, g);
    }
  }

  lemma {:induction false} SumZero<X>(s: seq<X>, weight: X -> nat)
    requires forall i :: 0 <= i < |s| ==> weight(s[i]) == 0
    ensures Sum(s, weight) == 0
  {
    if |s| > 0 {
      assert forall i :: 0 <= i < |s[1..]| ==> s[1..][i] == s[i + 1];
      SumZero(s[1..], weight);
    }
  }

  /** A positive sum has a positive term. */
  lemma {:induction false} SumWitness<X>(s: seq<X>, weight: X -> nat) returns (i: nat)
    requires Sum(s, weight) > 0
    ensures i < |s| && weight(s[i]) > 0
  {
    if weight(s[0]) > 0 {
      i := 0;
    } else {
      i := SumWitness(s[1..], weight);
      i := i + 1;
    }
  }
}
