/** Sums, spreads and roots of lists of results, for the metrics that divide by them. */
module Statistics {
  function Sum(xs: seq<real>): real {
    if xs == [] then 0.0 else Sum(xs[..|xs| - 1]) + xs[|xs| - 1]
  }

  function SquaredDistances(xs: seq<real>, mean: real): real {
    if xs == [] then 0.0
    else SquaredDistances(xs[..|xs| - 1], mean) + (xs[|xs| - 1] - mean) * (xs[|xs| - 1] - mean)
  }

  ghost predicate IsSqrt(sqrt: real -> real) {
    forall x :: x >= 0.0 ==> sqrt(x) >= 0.0 && sqrt(x) * sqrt(x) == x
  }

  predicate AllAre(xs: seq<real>, x: real) {
    forall i :: 0 <= i < |xs| ==> xs[i] == x
  }

  lemma SameSign(a: real, b: real, product: real)
    requires product == a * b && ((a > 0.0 && b > 0.0) || (a < 0.0 && b < 0.0))
    ensures product > 0.0
  {
  }

  lemma ZeroTimes(a: real, b: real, product: real)
    requires product == a * b && a == 0.0
    ensures product == 0.0
  {
  }

  lemma SquareSign(x: real, square: real)
    requires square == x * x
    ensures if x == 0.0 then square == 0.0 else square > 0.0
  {
    if x == 0.0 {
      ZeroTimes(x, x, square);
    } else {
      SameSign(x, x, square);
    }
  }

  /** Squared distances from the mean vanish when all values are the mean, and are positive otherwise. */
  lemma {:induction false} SpreadSign(xs: seq<real>, mean: real)
    ensures if AllAre(xs, mean) then SquaredDistances(xs, mean) == 0.0 else SquaredDistances(xs, mean) > 0.0
  {
    if xs != [] {
      var init, last := xs[..|xs| - 1], xs[|xs| - 1];
      SpreadSign(init, mean);
      var square := (last - mean) * (last - mean);
      SquareSign(last - mean, square);
      assert SquaredDistances(xs, mean) == SquaredDistances(init, mean) + square;
      if last == mean {
        assert xs == init + [last];
        assert AllAre(xs, mean) <==> AllAre(init, mean);
      } else {
        assert xs[|xs| - 1] != mean;
      }
    }
  }

  lemma QuotientSign(a: real, b: real)
    requires a >= 0.0 && b > 0.0
    ensures if a == 0.0 then a / b == 0.0 else a / b > 0.0
  {
  }

  lemma RootSign(x: real, sqrt: real -> real)
    requires IsSqrt(sqrt) && x >= 0.0
    ensures if x == 0.0 then sqrt(x) == 0.0 else sqrt(x) > 0.0
  {
    SquareSign(sqrt(x), x);
  }

  lemma {:induction false} SumOfEqual(xs: seq<real>, x: real)
    requires AllAre(xs, x)
    ensures Sum(xs) == |xs| as real * x
  {
    if xs != [] {
      SumOfEqual(xs[..|xs| - 1], x);
    }
  }

  lemma MeanOfEqual(xs: seq<real>, x: real)
    requires xs != [] && AllAre(xs, x)
    ensures Sum(xs) / |xs| as real == x
  {
    SumOfEqual(xs, x);
    CancelFactor(|xs| as real, x);
  }

  lemma CancelFactor(n: real, x: real)
    requires n > 0.0
    ensures n * x / n == x
  {
  }

  /** A part of a count, as a rate. */
  lemma Share(part: nat, whole: nat)
    requires part <= whole && whole > 0
    ensures 0.0 <= part as real / whole as real <= 1.0
  {
  }

  /** The share is what the part is to the whole. */
  predicate IsShare(share: real, part: real, whole: real) {
    whole != 0.0 && share * whole == part
  }

  lemma QuotientIsShare(part: real, whole: real)
    requires whole != 0.0
    ensures IsShare(part / whole, part, whole)
  {
  }
}
