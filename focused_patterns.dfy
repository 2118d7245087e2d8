/**
 * `focused_a5_complete`: the Fibonacci digital-root scan over the first fifteen
 * particles, the grouping of the particles by category, and the Fibonacci and
 * Lucas membership counts of the integer codes.
 */
module FocusedPatterns {
  import opened Counting
  import opened Grouping
  import opened ParticleData
  import opened DigitalRoots
  import opened FibonacciNumbers

  /** The inner loop: the digital roots of `k * 1 .. k * 4`, one check each. */
  method FourRoots(k: int, checks0: nat) returns (drs: seq<int>, checks: nat)
    ensures drs == Roots(k, FourMultipliers, DigitalRoot)
    ensures checks == checks0 + |FourMultipliers|
  {
    drs, checks := [], checks0;
    for j := 0 to |FourMultipliers|
      invariant drs == Roots(k, FourMultipliers[..j], DigitalRoot)
      invariant checks == checks0 + j
    {
      var mult := FourMultipliers[j];
      var dr := DigitalRoot(k * mult);
      assert Roots(k, FourMultipliers[..j + 1], DigitalRoot) == Roots(k, FourMultipliers[..j], DigitalRoot) + [dr];
      drs := drs + [dr];
      checks := checks + 1;
    }
    assert FourMultipliers[..|FourMultipliers|] == FourMultipliers;
  }

  /** The Fibonacci digital roots found over a list of codes, four products each. */
  function ScanTotal(ks: seq<int>): (total: nat)
    ensures total <= 4 * |ks|
  {
    if ks == [] then 0
    else ScanTotal(ks[..|ks| - 1]) + FibonacciHits(ks[|ks| - 1], FourMultipliers, DigitalRoot)
  }

  /** `particles[:15]`. */
  function FirstFifteen<T>(s: seq<T>): (r: seq<T>)
    ensures |r| == if |s| < 15 then |s| else 15
    ensures r == s[..|r|]
  {
    if |s| < 15 then s else s[..15]
  }

  /**
   * The scan over `particles[:15]`: every examined code takes four checks, and
   * the Fibonacci digital roots found are the sum of the per-code hit counts,
   * each at most 4, so never more than the checks.
   */
  method FibonacciRootScan(ks: seq<int>) returns (totalFib: nat, totalChecks: nat)
    ensures totalChecks == 4 * |FirstFifteen(ks)|
    ensures totalFib == ScanTotal(FirstFifteen(ks))
    ensures totalFib <= totalChecks
  {
    var examined := FirstFifteen(ks);
    totalFib, totalChecks := 0, 0;
    for i := 0 to |examined|
      invariant totalChecks == 4 * i
      invariant totalFib == ScanTotal(examined[..i])
    {
      var drs;
      drs, totalChecks := FourRoots(examined[i], totalChecks);
      var fibCount := CountWhere(drs, IsFibonacciDigit);
      assert examined[..i + 1][..i] == examined[..i];
      totalFib := totalFib + fibCount;
    }
    assert examined[..|examined|] == examined;
  }

  /**
   * The `categories` dict: one list of particles per category, in the order the
   * categories first appear. The groups keep the particles' order
   * (`Grouping.CollectInOrder`) and their sizes add up to the number of particles.
   */
  method GroupByCategory(particles: seq<Record>) returns (categories: map<string, seq<Record>>, order: seq<string>)
    ensures forall c :: c in categories <==> exists i :: 0 <= i < |particles| && particles[i].category == c
    ensures forall c :: c in categories ==> categories[c] == Collect(particles, CategoryOf, Itself, c)
    ensures forall c :: c in order <==> c in categories
    ensures forall i, j :: 0 <= i < j < |order| ==> order[i] != order[j]
    ensures forall i, j :: 0 <= i < j < |order| ==>
      FirstKeyIndex(particles, CategoryOf, order[i]) < FirstKeyIndex(particles, CategoryOf, order[j])
    ensures GroupSizes(particles, CategoryOf, Itself, order) == |particles|
  {
    categories, order := GroupBy(particles, CategoryOf, Itself);
    forall i | 0 <= i < |particles| ensures CategoryOf(particles[i]) in order {
      assert particles[i].category in categories;
    }
    GroupSizesTotal(particles, CategoryOf, Itself, order);
  }

  /** The `fibonacci` list of this script stops at 89. */
  predicate InFibonacciList(q: int) { q in FibonacciList[..12] }

  predicate InLucasList(q: int) { q in LucasList }

  predicate OnEitherList(q: int) { InFibonacciList(q) || InLucasList(q) }

  /** `fib_count` and `lucas_count`: how many codes are on each list. */
  function MembershipCounts(qInts: seq<int>): (counts: (nat, nat))
    ensures counts.0 <= |qInts| && counts.1 <= |qInts|
    ensures counts.0 == 0 <==> forall i :: 0 <= i < |qInts| ==> !InFibonacciList(qInts[i])
    ensures counts.1 == 0 <==> forall i :: 0 <= i < |qInts| ==> !InLucasList(qInts[i])
  {
    (CountWhere(qInts, InFibonacciList), CountWhere(qInts, InLucasList))
  }

  /** Only 1, 2 and 3 are on both lists of this script. */
  lemma FocusedListsOverlap(q: int)
    ensures InFibonacciList(q) && InLucasList(q) <==> 1 <= q <= 3
  {
    ListsOverlap(q);
    assert FibonacciList == FibonacciList[..12] + [144];
  }

  predicate OnBothLists(q: int) { 1 <= q <= 3 }

  /**
   * A code on both lists is counted by both: the two counts add up to the codes
   * on either list plus the codes equal to 1, 2 or 3.
   */
  lemma MembershipOverlap(qInts: seq<int>)
    ensures MembershipCounts(qInts).0 + MembershipCounts(qInts).1 ==
            CountWhere(qInts, OnEitherList) + CountWhere(qInts, OnBothLists)
  {
    forall i | 0 <= i < |qInts| ensures OnBothLists(qInts[i]) == (InFibonacciList(qInts[i]) && InLucasList(qInts[i])) {
      FocusedListsOverlap(qInts[i]);
    }
    CountWhereBoth(qInts, InFibonacciList, InLucasList, OnEitherList, OnBothLists);
  }
}
