/**
 * Digital roots. The scripts use two definitions: the closed form
 * `1 + (n - 1) % 9` (with 0 mapped to 0), and the repeated decimal digit sum,
 * which stops once the value drops below 10. The Fibonacci digits {1, 2, 3, 5, 8}
 * are the digital roots the scripts count as hits.
 */
module DigitalRoots {
  import opened Counting

  /**
   * The closed form. Python's `%` with divisor 9 never returns a negative
   * value, which is Dafny's `%` as well, so negative `n` also lands in 1..9.
   */
  function DigitalRoot(n: int): (r: int)
    ensures n == 0 ==> r == 0
    ensures n != 0 ==> 1 <= r <= 9
    ensures r % 9 == n % 9
  {
    if n == 0 then 0 else 1 + (n - 1) % 9
  }

  /** For nonzero `n`, the digital root is the only value in 1..9 congruent to `n` modulo 9. */
  lemma DigitalRootUnique(n: int, r: int)
    requires n != 0 && 1 <= r <= 9 && r % 9 == n % 9
    ensures r == DigitalRoot(n)
  {
  }

  /** A digital root is its own digital root. */
  lemma DigitalRootIdempotent(n: int)
    ensures DigitalRoot(DigitalRoot(n)) == DigitalRoot(n)
  {
  }

  /** Adding a multiple of 9 keeps the digital root, as long as neither value is 0. */
  lemma DigitalRootShift(n: int, t: int)
    requires n != 0 && n + 9 * t != 0
    ensures DigitalRoot(n + 9 * t) == DigitalRoot(n)
  {
    DigitalRootUnique(n + 9 * t, DigitalRoot(n));
  }

  /** `sum(int(d) for d in str(n))`: the sum of the decimal digits of `n`. */
  function DigitSum(n: nat): (s: nat)
    ensures s % 9 == n % 9
    ensures n >= 10 ==> 1 <= s < n
    ensures n >= 1 ==> s >= 1
  {
    if n < 10 then n
    else
      var q, d := n / 10, n % 10;
      DigitStep(q, d, DigitSum(q));
      d + DigitSum(q)
  }

  /** `10 * q + d` and `q + d` leave the same remainder modulo 9. */
  lemma DigitStep(q: int, d: int, x: int)
    requires x % 9 == q % 9
    ensures (d + x) % 9 == (10 * q + d) % 9
  {
    var k := (q - x) / 9;
    assert q - x == 9 * k;
    NineShift(d + x, q + k);
  }

  lemma NineShift(a: int, b: int)
    ensures (a + 9 * b) % 9 == a % 9
  {
  }

  /** The looping digital root: replace `n` by its digit sum while it is at least 10. */
  function RepeatedDigitSum(n: int): (r: int)
    decreases n
  {
    if n < 10 then n else RepeatedDigitSum(DigitSum(n))
  }

  /**
   * For `n >= 0` the looping definition and the closed form agree; a negative
   * `n` is returned unchanged by the loop while the closed form maps it into 1..9.
   */
  lemma {:induction false} RepeatedDigitSumIsDigitalRoot(n: int)
    ensures n >= 0 ==> RepeatedDigitSum(n) == DigitalRoot(n)
    ensures n < 0 ==> RepeatedDigitSum(n) == n != DigitalRoot(n)
  {
    if n >= 10 {
      RepeatedDigitSumIsDigitalRoot(DigitSum(n));
      DigitalRootUnique(n, DigitalRoot(DigitSum(n)));
    }
  }

  /** The loop of `digital_root`, proved to compute `RepeatedDigitSum`. */
  method DigitalRootLoop(n0: int) returns (n: int)
    ensures n == RepeatedDigitSum(n0)
    ensures n0 >= 0 ==> 0 <= n <= 9 && n == DigitalRoot(n0)
    ensures n0 < 0 ==> n == n0
  {
    RepeatedDigitSumIsDigitalRoot(n0);
    n := n0;
    while n >= 10
      invariant RepeatedDigitSum(n) == RepeatedDigitSum(n0)
      decreases n
    {
      n := DigitSum(n);
    }
  }

  /** The digital roots counted as Fibonacci hits. */
  const FibonacciDigits: set<int> := {1, 2, 3, 5, 8}

  predicate IsFibonacciDigit(d: int)
  {
    d in FibonacciDigits
  }

  /** The multipliers `[1, 2, 3, 4]` and `[1, 2, 3]` the scripts apply before taking digital roots. */
  const FourMultipliers: seq<int> := [1, 2, 3, 4]
  const ThreeMultipliers: seq<int> := [1, 2, 3]

  /** `[root(val * m) for m in mults]`. */
  function Roots(val: int, mults: seq<int>, root: int -> int): (rs: seq<int>)
    ensures |rs| == |mults|
    ensures forall i :: 0 <= i < |mults| ==> rs[i] == root(val * mults[i])
  {
    seq(|mults|, i requires 0 <= i < |mults| => root(val * mults[i]))
  }

  /** How many of `val * m` for `m` in `mults` have a Fibonacci digital root. */
  function FibonacciHits(val: int, mults: seq<int>, root: int -> int): (hits: nat)
    ensures hits <= |mults|
  {
    CountWhere(Roots(val, mults, root), IsFibonacciDigit)
  }

  /**
   * The hit count depends only on `val` modulo 9, once `val` and its shift are
   * nonzero and every multiplier is positive.
   */
  lemma HitsPeriodic(val: int, t: int, mults: seq<int>)
    requires val != 0 && val + 9 * t != 0
    requires forall i :: 0 <= i < |mults| ==> mults[i] > 0
    ensures FibonacciHits(val + 9 * t, mults, DigitalRoot) == FibonacciHits(val, mults, DigitalRoot)
  {
    forall i | 0 <= i < |mults|
      ensures DigitalRoot((val + 9 * t) * mults[i]) == DigitalRoot(val * mults[i])
    {
      ProductShift(val, t, mults[i]);
    }
    assert Roots(val + 9 * t, mults, DigitalRoot) == Roots(val, mults, DigitalRoot);
  }

  lemma ProductShift(val: int, t: int, m: int)
    requires val != 0 && val + 9 * t != 0 && m > 0
    ensures DigitalRoot((val + 9 * t) * m) == DigitalRoot(val * m)
  {
    var a, b := val * m, t * m;
    assert (val + 9 * t) * m == a + 9 * b;
    NonzeroProduct(val, m);
    NonzeroProduct(val + 9 * t, m);
    DigitalRootShift(a, b);
  }

  lemma NonzeroProduct(a: int, m: int)
    requires a != 0 && m > 0
    ensures a * m != 0
  {
    if a > 0 {
      assert a * m >= m;
    } else {
      assert a * m <= -m;
    }
  }

  /** For nonnegative values the looping and the closed-form roots give the same hits. */
  lemma LoopAndClosedHitsAgree(val: int, mults: seq<int>)
    requires val >= 0
    requires forall i :: 0 <= i < |mults| ==> mults[i] >= 0
    ensures FibonacciHits(val, mults, RepeatedDigitSum) == FibonacciHits(val, mults, DigitalRoot)
  {
    forall i | 0 <= i < |mults| ensures RepeatedDigitSum(val * mults[i]) == DigitalRoot(val * mults[i]) {
      RepeatedDigitSumIsDigitalRoot(val * mults[i]);
    }
    assert Roots(val, mults, RepeatedDigitSum) == Roots(val, mults, DigitalRoot);
  }

  /** Extending the multipliers by one adds that product's hit, if any. */
  lemma HitsExtend(val: int, mults: seq<int>, m: int, root: int -> int)
    ensures FibonacciHits(val, mults + [m], root) ==
            FibonacciHits(val, mults, root) + (if IsFibonacciDigit(root(val * m)) then 1 else 0)
  {
    assert Roots(val, mults + [m], root) == Roots(val, mults, root) + [root(val * m)];
    CountWhereAppend(Roots(val, mults, root), [root(val * m)], IsFibonacciDigit);
  }
}
