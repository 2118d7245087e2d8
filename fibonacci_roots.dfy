/**
 * `fibonacci_digital_root_analysis`: for each value of the `n_times_4` table,
 * how many of `val * 1 .. val * 4` have a Fibonacci digital root (by the
 * looping digit sum), the total over the table, and the particles with four
 * and with three hits.
 */
module FibonacciRootAnalysis {
  import opened Counting
  import opened Grouping
  import opened DigitalRoots

  /** The `n_times_4` dict, in insertion order. */
  const NTimesFour: seq<(string, int)> := [
    ("u", 12), ("d", 18), ("s", 43), ("μ", 44), ("c", 65), ("τ", 68),
    ("b", 75), ("W", 99), ("Z", 101), ("H", 103), ("t", 106)]

  /** The inner loop for one value: counts the products whose digital root is a Fibonacci digit. */
  method CountFibonacciHits(val: int) returns (hits: nat)
    ensures hits == FibonacciHits(val, FourMultipliers, RepeatedDigitSum)
    ensures hits <= 4
  {
    hits := 0;
    for j := 0 to |FourMultipliers|
      invariant hits == FibonacciHits(val, FourMultipliers[..j], RepeatedDigitSum)
    {
      var mult := FourMultipliers[j];
      var dr := DigitalRootLoop(val * mult);
      HitsExtend(val, FourMultipliers[..j], mult, RepeatedDigitSum);
      assert FourMultipliers[..j + 1] == FourMultipliers[..j] + [mult];
      if dr in FibonacciDigits {
        hits := hits + 1;
      }
    }
    assert FourMultipliers[..|FourMultipliers|] == FourMultipliers;
  }

  /** One entry of `results`: `(particle, val, fib_hits)`. */
  datatype HitRow = HitRow(particle: string, val: int, hits: nat)

  function HitsOf(row: HitRow): nat
  {
    row.hits
  }

  function ParticleOf(row: HitRow): string
  {
    row.particle
  }

  /** `sum(hits for _, _, hits in results)`. */
  function TotalHits(rows: seq<HitRow>): (total: nat)
    ensures (forall i :: 0 <= i < |rows| ==> rows[i].hits <= 4) ==> total <= 4 * |rows|
  {
    if rows == [] then 0
    else
      var init := rows[..|rows| - 1];
      assert forall i :: 0 <= i < |init| ==> init[i] == rows[i];
      TotalHits(init) + rows[|rows| - 1].hits
  }

  /**
   * The main loop and the summary: one row per table entry with its hit count,
   * the total against `max_possible`, and the `perfect` (4 hits) and `good`
   * (3 hits) lists of particle names, in table order.
   */
  method AnalyzeHits(table: seq<(string, int)>)
    returns (results: seq<HitRow>, totalHits: nat, maxPossible: nat, perfect: seq<string>, good: seq<string>)
    ensures |results| == |table|
    ensures forall i :: 0 <= i < |table| ==>
      results[i].particle == table[i].0 && results[i].val == table[i].1
      && results[i].hits == FibonacciHits(table[i].1, FourMultipliers, RepeatedDigitSum)
    ensures totalHits == TotalHits(results)
    ensures maxPossible == 4 * |table| && totalHits <= maxPossible
    ensures perfect == Collect(results, HitsOf, ParticleOf, 4)
    ensures good == Collect(results, HitsOf, ParticleOf, 3)
  {
    results := [];
    for i := 0 to |table|
      invariant |results| == i
      invariant forall j :: 0 <= j < i ==>
        results[j].particle == table[j].0 && results[j].val == table[j].1
        && results[j].hits == FibonacciHits(table[j].1, FourMultipliers, RepeatedDigitSum)
      invariant forall j :: 0 <= j < i ==> results[j].hits <= 4
    {
      var particle, val := table[i].0, table[i].1;
      var fibHits := CountFibonacciHits(val);
      results := results + [HitRow(particle, val, fibHits)];
    }
    totalHits := TotalHits(results);
    maxPossible := |table| * 4;
    perfect := Collect(results, HitsOf, ParticleOf, 4);
    good := Collect(results, HitsOf, ParticleOf, 3);
  }

  /**
   * With distinct particle names (the keys of a dict), `perfect` and `good`
   * hold exactly the particles with four and with three hits, and no particle
   * is in both.
   */
  lemma PerfectAndGood(results: seq<HitRow>)
    requires forall i, j :: 0 <= i < j < |results| ==> results[i].particle != results[j].particle
    ensures forall i :: 0 <= i < |results| ==>
      (results[i].particle in Collect(results, HitsOf, ParticleOf, 4) <==> results[i].hits == 4)
    ensures forall i :: 0 <= i < |results| ==>
      (results[i].particle in Collect(results, HitsOf, ParticleOf, 3) <==> results[i].hits == 3)
    ensures forall p :: p in Collect(results, HitsOf, ParticleOf, 4) ==> p !in Collect(results, HitsOf, ParticleOf, 3)
  {
    forall i | 0 <= i < |results|
      ensures results[i].particle in Collect(results, HitsOf, ParticleOf, 4) <==> results[i].hits == 4
      ensures results[i].particle in Collect(results, HitsOf, ParticleOf, 3) <==> results[i].hits == 3
    {
      CollectPartition(results, HitsOf, ParticleOf, i, 4);
      CollectPartition(results, HitsOf, ParticleOf, i, 3);
    }
    forall p | p in Collect(results, HitsOf, ParticleOf, 4) ensures p !in Collect(results, HitsOf, ParticleOf, 3) {
      CollectMembers(results, HitsOf, ParticleOf, 4, p);
      var i :| 0 <= i < |results| && results[i].hits == 4 && results[i].particle == p;
      CollectPartition(results, HitsOf, ParticleOf, i, 3);
    }
  }
}
