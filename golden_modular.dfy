/**
 * `golden_modular_analysis`: the modular weights `k = -2n` of the particles,
 * the Fibonacci and Lucas membership counters, the digital roots of k, 2k and
 * 3k, and the Fibonacci table of `main` (non-negative indices by iteration,
 * negative indices through `F(-m) = (-1)^(m + 1) F(m)`).
 */
module GoldenModular {
  import opened Wrappers
  import opened Counting
  import opened ParticleData
  import opened DigitalRoots
  import opened FibonacciNumbers

  /**
   * Python's `round(-q / 2)`: the integer nearest to `-q / 2`, ties going to
   * the even neighbour.
   */
  function RoundedWeight(q: int): (j: int)
    ensures -1 <= -q - 2 * j <= 1
    ensures -q - 2 * j != 0 ==> j % 2 == 0
  {
    if q % 2 == 0 then -(q / 2)
    else
      var below := (-q - 1) / 2;
      if below % 2 == 0 then below else below + 1
  }

  /** Round-half-to-even has only one answer. */
  lemma RoundedWeightUnique(q: int, j: int)
    requires -1 <= -q - 2 * j <= 1
    requires -q - 2 * j != 0 ==> j % 2 == 0
    ensures j == RoundedWeight(q)
  {
  }

  function AbsReal(x: real): real
  {
    if x < 0.0 then -x else x
  }

  /** The three fields `test_modular_weight_hypothesis` adds to a particle. */
  datatype ModularWeight = ModularWeight(kModular: real, kInt: int, kError: real)

  /**
   * For each particle with exponent `n = q / 4`: `k = -2n`, its rounding, and
   * the rounding error, which is 0 for even q and 1/2 for odd q.
   */
  method ModularWeights(particles: seq<Record>) returns (weights: seq<ModularWeight>)
    ensures |weights| == |particles|
    ensures forall i :: 0 <= i < |particles| ==>
      var q := particles[i].q;
      weights[i].kModular == -2.0 * Exponent(particles[i]) && weights[i].kInt == RoundedWeight(q)
      && weights[i].kError == if q % 2 == 0 then 0.0 else 0.5
  {
    weights := [];
    for i := 0 to |particles|
      invariant |weights| == i
      invariant forall j :: 0 <= j < i ==>
        var q := particles[j].q;
        weights[j].kModular == -2.0 * Exponent(particles[j]) && weights[j].kInt == RoundedWeight(q)
        && weights[j].kError == if q % 2 == 0 then 0.0 else 0.5
    {
      var n := Exponent(particles[i]);
      var k := -2.0 * n;
      var kInt := RoundedWeight(particles[i].q);
      var error := AbsReal(k - kInt as real);
      WeightError(particles[i].q, n, kInt);
      weights := weights + [ModularWeight(k, kInt, error)];
    }
  }

  lemma WeightError(q: int, n: real, j: int)
    requires 4.0 * n == q as real
    requires j == RoundedWeight(q)
    ensures AbsReal(-2.0 * n - j as real) == if q % 2 == 0 then 0.0 else 0.5
  {
    var d := -q - 2 * j;
    assert -2.0 * n == -(q as real) / 2.0;
    assert -2.0 * n - j as real == d as real / 2.0;
    if q % 2 == 0 {
      assert d == 0;
    } else if d == 1 {
      assert -2.0 * n - j as real == 0.5;
    } else {
      assert d == -1;
      assert -2.0 * n - j as real == -0.5;
    }
  }

  /** Membership in the `fib` list (up to 144) and the `lucas` list. */
  predicate OnFibonacciList(k: int) { k in FibonacciList }

  predicate OnLucasList(k: int) { k in LucasList }

  /** The loop of `analyze_fibonacci_patterns`: one counter per list. */
  method CountFibonacciLucas(ks: seq<int>) returns (fibCount: nat, lucasCount: nat)
    ensures fibCount == CountWhere(ks, OnFibonacciList) && fibCount <= |ks|
    ensures lucasCount == CountWhere(ks, OnLucasList) && lucasCount <= |ks|
  {
    fibCount, lucasCount := 0, 0;
    for i := 0 to |ks|
      invariant fibCount == CountWhere(ks[..i], OnFibonacciList)
      invariant lucasCount == CountWhere(ks[..i], OnLucasList)
    {
      var k := ks[i];
      assert ks[..i + 1][..i] == ks[..i];
      if k in FibonacciList {
        fibCount := fibCount + 1;
      }
      if k in LucasList {
        lucasCount := lucasCount + 1;
      }
    }
    assert ks[..|ks|] == ks;
  }

  predicate OnEitherList(k: int) { OnFibonacciList(k) || OnLucasList(k) }

  predicate OnBothLists(k: int) { 1 <= k <= 3 }

  /**
   * The counters are independent: a k on both lists (1, 2 or 3) raises both,
   * so the two counts add up to the ks on either list plus the ks equal to 1, 2 or 3.
   */
  lemma CountersOverlap(ks: seq<int>)
    ensures CountWhere(ks, OnFibonacciList) + CountWhere(ks, OnLucasList) ==
            CountWhere(ks, OnEitherList) + CountWhere(ks, OnBothLists)
  {
    forall i | 0 <= i < |ks| ensures OnBothLists(ks[i]) == (OnFibonacciList(ks[i]) && OnLucasList(ks[i])) {
      ListsOverlap(ks[i]);
    }
    CountWhereBoth(ks, OnFibonacciList, OnLucasList, OnEitherList, OnBothLists);
  }

  /** One printed line of `analyze_digital_root_patterns`. */
  datatype RootRow = RootRow(k: int, dr1: int, dr2: int, dr3: int, fibCount: nat)

  /** `row` is the printed line for `k`: its three digital roots and their Fibonacci hits. */
  predicate Describes(row: RootRow, k: int)
  {
    row.k == k && row.dr1 == DigitalRoot(k) && row.dr2 == DigitalRoot(2 * k) && row.dr3 == DigitalRoot(3 * k)
    && row.fibCount == FibonacciHits(k, ThreeMultipliers, DigitalRoot) && row.fibCount <= 3
  }

  /** The body of the loop for one particle. */
  method RootRowFor(k: int) returns (row: RootRow)
    ensures Describes(row, k)
  {
    var dr1, dr2, dr3 := DigitalRoot(k), DigitalRoot(2 * k), DigitalRoot(3 * k);
    var fibCount := FibonacciHits(k, ThreeMultipliers, DigitalRoot);
    row := RootRow(k, dr1, dr2, dr3, fibCount);
  }

  /** The loop of `analyze_digital_root_patterns`, one line per particle. */
  method DigitalRootPatterns(ks: seq<int>) returns (rows: seq<RootRow>)
    ensures |rows| == |ks|
    ensures forall i :: 0 <= i < |ks| ==> Describes(rows[i], ks[i])
  {
    rows := [];
    for i := 0 to |ks|
      invariant |rows| == i
      invariant forall j :: 0 <= j < i ==> Describes(rows[j], ks[j])
    {
      var row := RootRowFor(ks[i]);
      rows := rows + [row];
    }
  }

  /**
   * The three-root count here and the four-root count of the focused script
   * differ by the hit of 4k alone.
   */
  lemma ThreeAndFourRoots(k: int)
    ensures FibonacciHits(k, FourMultipliers, DigitalRoot) ==
            FibonacciHits(k, ThreeMultipliers, DigitalRoot) + (if IsFibonacciDigit(DigitalRoot(4 * k)) then 1 else 0)
  {
    HitsExtend(k, ThreeMultipliers, 4, DigitalRoot);
    assert ThreeMultipliers + [4] == FourMultipliers;
  }

  /** The non-negative branch of the table loop: `a, b = b, a + b`, `n - 1` times. */
  method FibonacciAt(n: nat) returns (val: nat)
    ensures val == Fib(n)
  {
    if n == 0 {
      val := 0;
    } else if n == 1 {
      val := 1;
    } else {
      var a, b := 0, 1;
      for i := 0 to n - 1
        invariant a == Fib(i) && b == Fib(i + 1)
      {
        a, b := b, a + b;
      }
      val := b;
    }
  }

  /**
   * The negative branch as written: `(-1) ** (m + 1) * fib_extended[10 + m][1]`,
   * which raises IndexError (None here) when the list has no entry `10 + m`.
   */
  function PositiveSideAsWritten(table: seq<(int, int)>, m: nat): (r: Option<int>)
    ensures r.Some? <==> 10 + m < |table|
  {
    if 10 + m < |table| then Some((if m % 2 == 1 then 1 else -1) * table[10 + m].1)
    else None
  }

  /**
   * The table loop of `main` as written, over `range(lo, hi + 1)`; `Failure(n)`
   * stands for the IndexError raised at index `n`. Negative indices come first
   * and look up entries that are not there yet, so any range starting below 0
   * fails at its first index; a range starting at 0 or above gives F(n).
   */
  method ExtendedTableAsWritten(lo: int, hi: int) returns (r: Result<seq<(int, int)>, int>)
    ensures lo < 0 && lo <= hi ==> r == Failure(lo)
    ensures lo >= 0 ==> r.Success? && |r.value| == if hi < lo then 0 else hi - lo + 1
    ensures lo >= 0 && r.Success? ==>
      forall i :: 0 <= i < |r.value| ==> r.value[i] == (lo + i, Fib(lo + i))
  {
    var table: seq<(int, int)> := [];
    var n := lo;
    while n <= hi
      invariant lo <= n && |table| == n - lo
      invariant n == lo || n <= hi + 1
      invariant lo < 0 ==> n == lo
      invariant lo >= 0 ==> forall i :: 0 <= i < |table| ==> table[i] == (lo + i, Fib(lo + i))
      decreases hi - n
    {
      var val: int;
      if n >= 0 {
        val := FibonacciAt(n);
      } else {
        match PositiveSideAsWritten(table, -n)
        case None =>
          return Failure(n);
        case Some(v) =>
          val := v;
      }
      table := table + [(n, val)];
      n := n + 1;
    }
    return Success(table);
  }

  /** The first index of the script's range, -10, looks up entry 20 of the still empty list. */
  lemma FirstLookupFails()
    ensures PositiveSideAsWritten([], 10) == None
  {
  }

  /**
   * The evidently intended table: 21 entries for -10 .. 10, each negative entry
   * taken from the positive side as `(-1) ** (m + 1) * F(m)`.
   */
  method ExtendedFibonacci() returns (table: seq<(int, int)>)
    ensures |table| == 21
    ensures forall i :: 0 <= i < 21 ==> table[i] == (i - 10, ExtFib(i - 10))
  {
    table := [];
    for n := -10 to 11
      invariant |table| == n + 10
      invariant forall i :: 0 <= i < |table| ==> table[i] == (i - 10, ExtFib(i - 10))
    {
      var val: int;
      if n >= 0 {
        val := FibonacciAt(n);
      } else {
        var m := -n;
        var positive := FibonacciAt(m);
        val := if m % 2 == 1 then positive else -(positive as int);
      }
      table := table + [(n, val)];
    }
  }
}
