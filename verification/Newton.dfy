/** The Newton square root of c/test_sqrt_by_newton_iteration.c, over exact reals. */
module Newton {

  const PRECISION := 0.001

  function Pow2(k: nat): (p: real)
    ensures p >= 1.0
  {
    if k == 0 then 1.0 else 2.0 * Pow2(k - 1)
  }

  function OriginTryVal(n: real): real {
    n / 2.0
  }

  function Step(n: real, x: real): real
    requires x != 0.0
  {
    (n / x + x) / 2.0
  }

  /** The value of `result` after `k` rounds of the loop. */
  function Iterate(n: real, k: nat): (x: real)
    requires n > 0.0
    ensures x > 0.0
  {
    if k == 0 then OriginTryVal(n)
    else
      var x := Iterate(n, k - 1);
      assert n / x > 0.0;
      Step(n, x)
  }

  /** The loop's exit test after round `k`. */
  predicate Close(n: real, k: nat)
    requires n > 0.0 && k > 0
  {
    -PRECISION <= Iterate(n, k) - Iterate(n, k - 1) <= PRECISION
  }

  /** Distance between an iterate and its reflection n/x; the root lies between the two. */
  function Gap(n: real, x: real): real
    requires x != 0.0
  {
    x - n / x
  }

  /** A common positive factor can be cancelled from an inequality, or put back. */
  lemma Cancel(a: real, b: real, c: real)
    requires c > 0.0
    ensures a * c <= b * c <==> a <= b
  {
  }

  lemma SquareOrder(a: real, b: real)
    requires a >= 0.0 && b >= 0.0
    ensures a * a <= b * b <==> a <= b
  {
    assert b * b - a * a == (b - a) * (a + b);
    if a + b > 0.0 {
      Cancel(0.0, b - a, a + b);
    }
  }

  lemma SquareNonNegative(d: real)
    ensures d * d >= 0.0
  {
  }

  /** One step squares the distance: the residue of the new value is exactly the square of the move. */
  lemma ErrorIdentity(n: real, x: real)
    requires x != 0.0
    ensures var y := Step(n, x); y * y - n == (y - x) * (y - x) >= 0.0
  {
    var q := n / x;
    assert q * x == n;
    var y := (q + x) / 2.0;
    assert y * y - q * x == (y - x) * (y - x);
    SquareNonNegative(y - x);
  }

  /** From above the root a step goes down, stays above the root, and at least halves the gap. */
  lemma StepHalvesGap(n: real, x: real)
    requires n > 0.0 && x > 0.0 && x * x >= n
    ensures var y := Step(n, x);
      && 0.0 < y <= x
      && y * y >= n
      && x - y == Gap(n, x) / 2.0
      && 0.0 <= Gap(n, y) <= Gap(n, x) / 2.0
  {
    var q, y := n / x, Step(n, x);
    assert q * x == n && q > 0.0;
    Cancel(q, x, x);
    assert y <= x;
    ErrorIdentity(n, x);
    var p := n / y;
    assert p * y == n;
    Cancel(p, y, y);
    Cancel(y, x, q);
    assert q * y == y * q && q * x == x * q;
    Cancel(q, p, y);
  }

  lemma FirstRound(n: real)
    requires n > 0.0
    ensures Iterate(n, 1) == 1.0 + n / 4.0
    ensures Iterate(n, 1) * Iterate(n, 1) >= n
    ensures Gap(n, Iterate(n, 1)) <= 1.0 + n / 4.0
  {
    var half := n / 2.0;
    assert 2.0 * half == n;
    assert n / half == 2.0;
    ErrorIdentity(n, half);
    assert n / (1.0 + n / 4.0) > 0.0;
  }

  /** Every iterate after the first round is at or above the root. */
  lemma AboveRoot(n: real, k: nat)
    requires n > 0.0 && k > 0
    ensures Iterate(n, k) * Iterate(n, k) >= n
  {
    var x := Iterate(n, k - 1);
    ErrorIdentity(n, x);
    assert Iterate(n, k) == Step(n, x);
  }

  /** After round one the iterates never increase, and each move is half of a gap that itself halves. */
  lemma Descent(n: real, k: nat)
    requires n > 0.0 && k > 0
    ensures Iterate(n, k + 1) <= Iterate(n, k)
    ensures Iterate(n, k) - Iterate(n, k + 1) == Gap(n, Iterate(n, k)) / 2.0
    ensures 0.0 <= Gap(n, Iterate(n, k + 1)) <= Gap(n, Iterate(n, k)) / 2.0
  {
    AboveRoot(n, k);
    StepHalvesGap(n, Iterate(n, k));
  }

  /** (1 + n/4) / 2^k, the bound on the gap after round k + 1. */
  function Limit(n: real, k: nat): real {
    if k == 0 then 1.0 + n / 4.0 else Limit(n, k - 1) / 2.0
  }

  lemma {:induction false} LimitIsQuotient(n: real, k: nat)
    ensures Limit(n, k) * Pow2(k) == 1.0 + n / 4.0
  {
    if k > 0 {
      LimitIsQuotient(n, k - 1);
      assert Limit(n, k) * Pow2(k) == (Limit(n, k) * 2.0) * Pow2(k - 1);
    }
  }

  lemma {:induction false} GapWithinLimit(n: real, k: nat)
    requires n > 0.0
    ensures Gap(n, Iterate(n, k + 1)) <= Limit(n, k)
  {
    if k == 0 {
      FirstRound(n);
    } else {
      GapWithinLimit(n, k - 1);
      Descent(n, k);
    }
  }

  /** Round k + 2 always passes the exit test once 2 * PRECISION * 2^k reaches 1 + n/4. */
  lemma ClosesBy(n: real, k: nat)
    requires n > 0.0 && 1.0 + n / 4.0 <= 2.0 * PRECISION * Pow2(k)
    ensures Close(n, k + 2)
  {
    LimitIsQuotient(n, k);
    Cancel(Limit(n, k), 2.0 * PRECISION, Pow2(k));
    GapWithinLimit(n, k);
    Descent(n, k + 1);
  }

  lemma {:induction false} Pow2AtLeast(k: nat)
    ensures Pow2(k) >= k as real
  {
    if k > 0 { Pow2AtLeast(k - 1); }
  }

  /** A number of rounds that is certainly enough, for termination. */
  lemma EnoughRounds(n: real) returns (k: nat)
    requires n > 0.0
    ensures 1.0 + n / 4.0 <= 2.0 * PRECISION * Pow2(k)
  {
    var target := (1.0 + n / 4.0) / (2.0 * PRECISION);
    k := target.Floor + 1;
    Pow2AtLeast(k);
    assert target <= Pow2(k);
    assert target * (2.0 * PRECISION) == 1.0 + n / 4.0;
  }

  /** The residue bound read as a distance: the answer exceeds the true root by at most PRECISION. */
  lemma RootWithinPrecision(n: real, root: real, r: real)
    requires root >= 0.0 && root * root == n
    requires r > 0.0 && 0.0 <= r * r - n <= 0.000001
    ensures root <= r <= root + 0.001
  {
    SquareOrder(root, r);
    var s := root + PRECISION;
    assert s * s == root * root + 2.0 * (root * PRECISION) + PRECISION * PRECISION;
    SquareOrder(r, s);
  }

  lemma SmallSquare(d: real)
    requires -PRECISION <= d <= PRECISION
    ensures 0.0 <= d * d <= PRECISION * PRECISION
  {
    var size := if d >= 0.0 then d else -d;
    SquareOrder(size, PRECISION);
    assert size * size == d * d;
  }

  lemma StepResidue(n: real, x: real, y: real)
    requires n > 0.0 && x > 0.0 && y == Step(n, x) && -PRECISION <= y - x <= PRECISION
    ensures 0.0 <= y * y - n <= PRECISION * PRECISION
  {
    ErrorIdentity(n, x);
    SmallSquare(y - x);
  }

  /** What passing the exit test says about the answer. */
  lemma ExitResidue(n: real, k: nat, x: real, y: real)
    requires n > 0.0 && k > 0 && Close(n, k) && x == Iterate(n, k - 1) && y == Iterate(n, k)
    ensures 0.0 <= y * y - n <= PRECISION * PRECISION
  {
    StepResidue(n, x, y);
  }

  /** A run that has not stopped before round `rounds` obeys the logarithmic bound. */
  lemma CostBound(n: real, rounds: nat, k: nat)
    requires n > 0.0 && forall i :: 0 < i < rounds ==> !Close(n, i)
    ensures 1.0 + n / 4.0 <= 2.0 * PRECISION * Pow2(k) ==> rounds <= k + 2
  {
    if 1.0 + n / 4.0 <= 2.0 * PRECISION * Pow2(k) {
      ClosesBy(n, k);
    }
  }

  /** The do/while loop; the last two values of `result` come back. */
  method Converge(n: real) returns (result: real, tempResult: real, ghost rounds: nat)
    requires n > 0.0
    ensures rounds > 0 && result == Iterate(n, rounds) && tempResult == Iterate(n, rounds - 1)
    ensures Close(n, rounds) && forall k :: 0 < k < rounds ==> !Close(n, k)
  {
    ghost var bound := EnoughRounds(n);
    tempResult := OriginTryVal(n);
    result := Step(n, tempResult);
    rounds := 1;
    while result - tempResult > PRECISION || result - tempResult < -PRECISION
      invariant 0 < rounds <= bound + 2
      invariant tempResult == Iterate(n, rounds - 1) && result == Iterate(n, rounds)
      invariant forall k :: 0 < k < rounds ==> !Close(n, k)
      decreases bound + 2 - rounds
    {
      tempResult := result;
      result := Step(n, tempResult);
      rounds := rounds + 1;
      CostBound(n, rounds, bound);
    }
  }

  method TestSqrt(n: real) returns (result: real, ghost rounds: nat)
    requires n > 0.0
    // the answer is the first iterate within 0.001 of the one before
    ensures rounds > 0 && result == Iterate(n, rounds) && -0.001 <= Iterate(n, rounds) - Iterate(n, rounds - 1) <= 0.001
    ensures forall k :: 0 < k < rounds ==>
      Iterate(n, k) - Iterate(n, k - 1) > 0.001 || Iterate(n, k) - Iterate(n, k - 1) < -0.001
    // its residue
    ensures 0.0 <= result * result - n <= 0.000001
    // and its cost: about 2 + log2((1 + n/4) / 0.002) rounds
    ensures forall k: nat :: 1.0 + n / 4.0 <= 0.002 * Pow2(k) ==> rounds <= k + 2
  {
    var tempResult;
    result, tempResult, rounds := Converge(n);
    ExitResidue(n, rounds, tempResult, result);
    forall k | 0 < k < rounds
      ensures Iterate(n, k) - Iterate(n, k - 1) > 0.001 || Iterate(n, k) - Iterate(n, k - 1) < -0.001
    {
      assert !Close(n, k);
    }
    forall k: nat ensures 1.0 + n / 4.0 <= 0.002 * Pow2(k) ==> rounds <= k + 2 {
      CostBound(n, rounds, k);
    }
  }
}
