/** Trial division by 2, 3 and the numbers 6k-1 and 6k+1, in 64-bit unsigned arithmetic. */
module Primes {
  const WORD: nat := 0x1_0000_0000_0000_0000

  type uint64 = n: nat | n < WORD

  /** What the processor computes for an unsigned product or sum. */
  function Wrap(n: nat): uint64 { n % WORD }

  datatype PrimeResult = PrimeResult(isPrime: bool, smallestFactor: nat)

  predicate Divides(d: nat, n: nat)
    requires d > 0
  {
    n % d == 0
  }

  /** No number from 2 up to, not including, `limit` divides `n`. */
  ghost predicate NoDivisorBelow(n: nat, limit: nat) {
    forall d :: 2 <= d < limit ==> !Divides(d, n)
  }

  ghost predicate IsPrime(n: nat) {
    n >= 2 && NoDivisorBelow(n, n)
  }

  ghost predicate IsLeastFactor(f: nat, n: nat) {
    f >= 2 && Divides(f, n) && NoDivisorBelow(n, f)
  }

  /** The answer arithmetic dictates. Zero and one are not prime and get factor 0. */
  ghost predicate Exact(n: nat, r: PrimeResult) {
    && r.isPrime == IsPrime(n)
    && (n < 2 || r.isPrime ==> r.smallestFactor == 0)
    && (n >= 2 && !r.isPrime ==> IsLeastFactor(r.smallestFactor, n))
  }

  lemma LeastFactorIsUnique(n: nat, f: nat, g: nat)
    requires IsLeastFactor(f, n) && IsLeastFactor(g, n)
    ensures f == g
  {
    assert !(2 <= f < g) && !(2 <= g < f);
  }

  /** There is only one exact answer. */
  lemma ExactIsUnique(n: nat, r: PrimeResult, q: PrimeResult)
    requires Exact(n, r) && Exact(n, q)
    ensures r == q
  {
    if n >= 2 && !r.isPrime { LeastFactorIsUnique(n, r.smallestFactor, q.smallestFactor); }
  }

  lemma ProductIsMonotone(d: nat, x: int, y: int)
    requires x <= y
    ensures d * x <= d * y
  {
  }

  lemma DivisionIsUnique(n: nat, d: nat, q: nat)
    requires d > 0 && n == d * q
    ensures n % d == 0 && n / d == q
  {
    var k := q - n / d;
    assert d * k == n % d;
    if k >= 1 { ProductIsMonotone(d, 1, k); }
    if k <= -1 { ProductIsMonotone(d, k, -1); }
  }

  /** A divisor of a divisor divides. */
  lemma DividesTransitive(a: nat, b: nat, n: nat)
    requires a > 0 && b > 0 && Divides(a, b) && Divides(b, n)
    ensures Divides(a, n)
  {
    var x, y := b / a, n / b;
    assert n == b * y && b == a * x;
    assert (a * x) * y == a * (x * y);
    DivisionIsUnique(n, a, x * y);
  }

  /** A proper divisor and its cofactor are both at least `i` when nothing below `i` divides. */
  lemma DivisorPairsAreLarge(n: nat, d: nat, i: nat)
    requires NoDivisorBelow(n, i) && 2 <= d < n && Divides(d, n)
    ensures i * i <= n
  {
    var e := n / d;
    assert n == d * e;
    if e <= 1 { ProductIsMonotone(d, e, 1); }
    DivisionIsUnique(n, e, d);
    assert Divides(e, n);
    ProductIsMonotone(i, i, e);
    ProductIsMonotone(e, i, d);
  }

  /** A number without divisors below `i` and below i * i is prime. */
  lemma NoSmallDivisorMeansPrime(n: nat, i: nat)
    requires n >= 2 && NoDivisorBelow(n, i) && i * i > n
    ensures IsPrime(n)
  {
    forall d | 2 <= d < n
      ensures !Divides(d, n)
    {
      if Divides(d, n) { DivisorPairsAreLarge(n, d, i); }
    }
  }

  /** A multiple of a non-divisor does not divide. */
  lemma MultipleDoesNotDivide(a: nat, d: nat, n: nat)
    requires a > 0 && d > 0 && Divides(a, d) && !Divides(a, n)
    ensures !Divides(d, n)
  {
    if Divides(d, n) { DividesTransitive(a, d, n); }
  }

  lemma StrideResidues(i: nat)
    requires i % 6 == 5
    ensures Divides(2, i + 1) && Divides(2, i + 3) && Divides(2, i + 5) && Divides(3, i + 4)
  {
    var q := i / 6;
    DivisionIsUnique(i + 1, 2, 3 * q + 3);
    DivisionIsUnique(i + 3, 2, 3 * q + 4);
    DivisionIsUnique(i + 5, 2, 3 * q + 5);
    DivisionIsUnique(i + 4, 3, 2 * q + 3);
  }

  /** If 2 and 3 and everything below `i` are ruled out, so are the four numbers the stride skips. */
  lemma StrideSkipsNoDivisor(n: nat, i: nat)
    requires i % 6 == 5 && NoDivisorBelow(n, i)
    requires !Divides(i, n) && !Divides(i + 2, n)
    ensures NoDivisorBelow(n, i + 6)
  {
    assert !Divides(2, n) && !Divides(3, n);
    StrideResidues(i);
    MultipleDoesNotDivide(2, i + 1, n);
    MultipleDoesNotDivide(2, i + 3, n);
    MultipleDoesNotDivide(3, i + 4, n);
    MultipleDoesNotDivide(2, i + 5, n);
  }

  /** The loop's guard for trial value `j`, on the wrapped square. */
  predicate GuardPasses(n: nat, j: nat) {
    Wrap(j * j) <= n
  }

  /** The largest trial value whose square still fits in 64 bits. */
  const LAST_EXACT: nat := 0xFFFF_FFFB

  /** A trial value whose square wraps to 2^64 - 7: every prime above the square of `LAST_EXACT`
      leaves the loop here at the latest. */
  const ESCAPE: nat := 1852311383259529397

  /** Below 2^32 - 5 no square wraps; the next trial value is the first whose square does. */
  lemma SquaresFitBelow(i: nat)
    requires i <= LAST_EXACT
    ensures i * i < WORD && Wrap(i * i) == i * i
    ensures LAST_EXACT * LAST_EXACT == 18446744030759878681
    ensures (LAST_EXACT + 6) * (LAST_EXACT + 6) >= WORD
  {
    ProductIsMonotone(i, i, LAST_EXACT);
    ProductIsMonotone(LAST_EXACT, i, LAST_EXACT);
  }

  /** From the square of `LAST_EXACT` on, the guard no longer tests the square root: the next trial
      value passes it although its true square exceeds every 64-bit number. */
  lemma GuardWrapsAboveBound(n: uint64)
    requires n >= LAST_EXACT * LAST_EXACT
    ensures GuardPasses(n, LAST_EXACT + 6) && (LAST_EXACT + 6) * (LAST_EXACT + 6) > n
  {
    assert (LAST_EXACT + 6) * (LAST_EXACT + 6) == WORD + 0x2_0000_0001;
  }

  lemma EscapeSquare()
    ensures ESCAPE % 6 == 5 && Wrap(ESCAPE * ESCAPE) == WORD - 7
  {
    assert ESCAPE * ESCAPE == 185997997632698875 * WORD + (WORD - 7);
  }

  /** The seven largest 64-bit numbers are composite, with a divisor below 14. */
  lemma TopOfRangeIsComposite(n: uint64)
    requires n >= WORD - 7
    ensures !NoDivisorBelow(n, 14)
  {
    assert Divides(3, WORD - 1) && Divides(2, WORD - 2) && Divides(13, WORD - 3) && Divides(2, WORD - 4);
    assert Divides(11, WORD - 5) && Divides(2, WORD - 6) && Divides(3, WORD - 7);
  }

  ghost predicate TrialsPassBelow(n: nat, i: nat) {
    forall j :: 5 <= j < i && j % 6 == 5 ==> GuardPasses(n, j)
  }

  /** While the guard has passed for every trial value up to `i`, the loop is still well below `n`.
      For a large prime the wrapped squares alone would not bound the loop by the square root; what
      stops it before it reaches n itself is the trial value `ESCAPE`. */
  lemma TrialsStayBelowN(n: uint64, i: nat)
    requires i >= 5 && i % 6 == 5 && NoDivisorBelow(n, i)
    requires TrialsPassBelow(n, i) && GuardPasses(n, i)
    ensures i + 2 < n
  {
    if i <= LAST_EXACT {
      SquaresFitBelow(i);
      ProductIsMonotone(i, 5, i);
    } else {
      SquaresFitBelow(LAST_EXACT);
      assert GuardPasses(n, LAST_EXACT);
      if i >= ESCAPE {
        EscapeSquare();
        assert GuardPasses(n, ESCAPE);
        TopOfRangeIsComposite(n);
      }
    }
  }

  /** Ruling out the small cases before the loop. */
  lemma NoDivisorBelowFive(n: nat)
    requires n % 2 != 0 && n % 3 != 0
    ensures NoDivisorBelow(n, 5)
  {
    if Divides(4, n) { DividesTransitive(2, 4, n); }
  }

  lemma NothingWrapsBelow(x: nat)
    requires x < WORD
    ensures Wrap(x) == x
  {
  }

  lemma NextTrial(n: nat, i: nat)
    requires i % 6 == 5 && TrialsPassBelow(n, i) && GuardPasses(n, i)
    ensures (i + 6) % 6 == 5 && TrialsPassBelow(n, i + 6)
  {
    forall j | 5 <= j < i + 6 && j % 6 == 5
      ensures j <= i
    {
    }
  }

  lemma FactorMeansComposite(n: nat, f: nat)
    requires 2 <= f < n && Divides(f, n)
    ensures !IsPrime(n)
  {
  }

  lemma OwnDivisor(n: nat, limit: nat)
    requires n >= 2 && NoDivisorBelow(n, limit)
    ensures limit <= n
  {
    assert Divides(n, n);
  }

  /** The guard fails for `i`: whether or not the square wrapped, `i` is past the square root. */
  lemma GuardFailsPastRoot(n: uint64, i: nat)
    requires !GuardPasses(n, i)
    ensures i * i > n
  {
    if i * i < WORD { assert Wrap(i * i) == i * i; }
  }

  /** Trial division answers exactly on the whole 64-bit range. Products do wrap for numbers above
      the square of `LAST_EXACT`; the answer is right all the same. */
  method CheckPrime(n: uint64) returns (r: PrimeResult)
    ensures Exact(n, r)
  {
    if n < 2 { return PrimeResult(false, 0); }
    if n == 2 { return PrimeResult(true, 0); }
    if n % 2 == 0 {
      FactorMeansComposite(n, 2);
      return PrimeResult(false, 2);
    }
    if n == 3 { return PrimeResult(true, 0); }
    if n % 3 == 0 {
      FactorMeansComposite(n, 3);
      return PrimeResult(false, 3);
    }
    NoDivisorBelowFive(n);
    var i: nat := 5;
    while GuardPasses(n, i)
      invariant 5 <= i <= n && i % 6 == 5
      invariant NoDivisorBelow(n, i)
      invariant TrialsPassBelow(n, i)
      decreases n - i
    {
      TrialsStayBelowN(n, i);
      if Divides(i, n) {
        FactorMeansComposite(n, i);
        return PrimeResult(false, i);
      }
      var j := Wrap(i + 2);
      NothingWrapsBelow(i + 2);
      if Divides(j, n) {
        NoDivisorAtEven(n, i);
        FactorMeansComposite(n, j);
        return PrimeResult(false, j);
      }
      StrideSkipsNoDivisor(n, i);
      OwnDivisor(n, i + 6);
      NothingWrapsBelow(i + 6);
      NextTrial(n, i);
      i := Wrap(i + 6);
    }
    GuardFailsPastRoot(n, i);
    NoSmallDivisorMeansPrime(n, i);
    return PrimeResult(true, 0);
  }

  lemma NoDivisorAtEven(n: nat, i: nat)
    requires i >= 5 && i % 6 == 5 && NoDivisorBelow(n, i) && !Divides(i, n)
    ensures NoDivisorBelow(n, i + 2)
  {
    assert !Divides(2, n);
    StrideResidues(i);
    MultipleDoesNotDivide(2, i + 1, n);
  }
}
