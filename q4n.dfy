/**
 * `q4n_fundamental`: the `q mod 4` weight labels, the remainder check of q
 * against the Casimir values 8, 15 and 24, and the choice of the A5 4D weight
 * w in {-3, -1, 1, 3} that makes q0 = q - 4w smallest.
 */
module Q4N {
  import opened Basis

  /** The label printed for `q % 4` (Python's `%`, never negative for divisor 4). */
  function Mod4Label(q: int): (weight: string)
    ensures weight in ["0 (trivial?)", "+1", "-2? (not standard)", "+3 or -1"]
  {
    var r := q % 4;
    if r == 0 then "0 (trivial?)"
    else if r == 1 then "+1"
    else if r == 2 then "-2? (not standard)"
    else "+3 or -1"
  }

  /** Adding a multiple of 4 leaves the remainder unchanged. */
  lemma ModFourShift(q: int, k: int)
    ensures (q + 4 * k) % 4 == q % 4
  {
    var r := q % 4;
    assert q == 4 * (q / 4) + r;
    assert q + 4 * k == 4 * (q / 4 + k) + r;
  }

  /**
   * The remainder is in 0..3 also for negative q, and the label is a function
   * of that remainder alone: two values get the same label exactly when they
   * agree modulo 4.
   */
  lemma Mod4LabelByResidue(p: int, q: int)
    ensures 0 <= q % 4 < 4
    ensures Mod4Label(p) == Mod4Label(q) <==> p % 4 == q % 4
  {
  }

  /** Shifting q by a multiple of 4 keeps its label. */
  lemma Mod4LabelPeriodic(q: int, k: int)
    ensures Mod4Label(q + 4 * k) == Mod4Label(q)
  {
    ModFourShift(q, k);
    Mod4LabelByResidue(q + 4 * k, q);
  }

  /** The `reps` table of `test_casimir_hypothesis`: name, dimension, C2. */
  const Reps: seq<(string, int, int)> := [("1 (trivial)", 1, 0), ("3", 3, 8), ("3'", 3, 8), ("4", 4, 15), ("5", 5, 24)]

  /** Every entry of the table has C2 = dim^2 - 1, the trivial representation included. */
  lemma RepsCasimir()
    ensures forall i :: 0 <= i < |Reps| ==> Reps[i].2 == Reps[i].1 * Reps[i].1 - 1
  {
  }

  /** The q values and C2 values the remainder check walks over. */
  const CheckQs: seq<int> := [0, 12, 44, 68, 103, 106]
  const CheckC2s: seq<int> := [0, 8, 15, 24]

  /** One printed line: q is near `multiple` times C2, with `remainder` left over. */
  datatype CasimirLine = CasimirLine(q: int, multiple: int, c2: int, remainder: int)

  /** The printing condition, as written: `abs(remainder) < 3 or abs(remainder - C2) < 3`. */
  predicate NearMultiple(q: int, c2: int)
    requires c2 > 0
  {
    Abs(q % c2) < 3 || Abs(q % c2 - c2) < 3
  }

  /** The line for one (q, C2) pair, if any; C2 = 0 is skipped before any `%`. */
  function LineFor(q: int, c2: int): seq<CasimirLine>
  {
    if c2 > 0 && NearMultiple(q, c2) then [CasimirLine(q, q / c2, c2, q % c2)] else []
  }

  /** The lines of the inner loop over `c2s`, for one q. */
  function LinesForQ(q: int, c2s: seq<int>): seq<CasimirLine>
  {
    if c2s == [] then [] else LinesForQ(q, c2s[..|c2s| - 1]) + LineFor(q, c2s[|c2s| - 1])
  }

  /** The lines of both loops, in printing order. */
  function CasimirLines(qs: seq<int>, c2s: seq<int>): seq<CasimirLine>
  {
    if qs == [] then [] else CasimirLines(qs[..|qs| - 1], c2s) + LinesForQ(qs[|qs| - 1], c2s)
  }

  /** The inner loop of the remainder check. */
  method CheckQ(q: int, c2s: seq<int>) returns (lines: seq<CasimirLine>)
    ensures lines == LinesForQ(q, c2s)
  {
    lines := [];
    for j := 0 to |c2s|
      invariant lines == LinesForQ(q, c2s[..j])
    {
      assert c2s[..j + 1][..j] == c2s[..j];
      var c2 := c2s[j];
      if c2 > 0 {
        var remainder := q % c2;
        var multiple := q / c2;
        if Abs(remainder) < 3 || Abs(remainder - c2) < 3 {
          lines := lines + [CasimirLine(q, multiple, c2, remainder)];
        }
      }
    }
    assert c2s[..|c2s|] == c2s;
  }

  /** Both loops of the remainder check. */
  method CheckCasimir(qs: seq<int>, c2s: seq<int>) returns (lines: seq<CasimirLine>)
    ensures lines == CasimirLines(qs, c2s)
  {
    lines := [];
    for i := 0 to |qs|
      invariant lines == CasimirLines(qs[..i], c2s)
    {
      assert qs[..i + 1][..i] == qs[..i];
      var forQ := CheckQ(qs[i], c2s);
      lines := lines + forQ;
    }
    assert qs[..|qs|] == qs;
  }

  /** What a printed line promises: floor division and remainder of q by a positive C2, and nearness. */
  predicate SoundLine(line: CasimirLine)
  {
    line.c2 > 0 && line.multiple * line.c2 + line.remainder == line.q
    && 0 <= line.remainder < line.c2 && NearMultiple(line.q, line.c2)
  }

  /** The lines for one q are sound and come from `c2s`; a pair is printed exactly when it is near. */
  lemma {:induction false} LinesForQExact(q: int, c2s: seq<int>)
    ensures forall line :: line in LinesForQ(q, c2s) ==> SoundLine(line) && line.q == q && line.c2 in c2s
    ensures forall c2 :: c2 in c2s && c2 > 0 && NearMultiple(q, c2) ==>
      exists line :: line in LinesForQ(q, c2s) && line.c2 == c2
  {
    if c2s != [] {
      var init, last := c2s[..|c2s| - 1], c2s[|c2s| - 1];
      LinesForQExact(q, init);
      LineForExact(q, last);
      assert c2s == init + [last];
      assert LinesForQ(q, c2s) == LinesForQ(q, init) + LineFor(q, last);
      if last > 0 && NearMultiple(q, last) {
        assert LineFor(q, last)[0] in LinesForQ(q, c2s);
      }
    }
  }

  lemma LineForExact(q: int, c2: int)
    ensures forall line :: line in LineFor(q, c2) ==> SoundLine(line) && line.q == q && line.c2 == c2
    ensures c2 > 0 && NearMultiple(q, c2) ==> |LineFor(q, c2)| == 1 && LineFor(q, c2)[0].c2 == c2
  {
  }

  /**
   * Every printed line is sound and comes from the two lists, and every near
   * (q, C2) pair with C2 > 0 is printed.
   */
  lemma {:induction false} CasimirLinesExact(qs: seq<int>, c2s: seq<int>)
    ensures forall line :: line in CasimirLines(qs, c2s) ==> SoundLine(line) && line.q in qs && line.c2 in c2s
    ensures forall q, c2 :: q in qs && c2 in c2s && c2 > 0 && NearMultiple(q, c2) ==>
      exists line :: line in CasimirLines(qs, c2s) && line.q == q && line.c2 == c2
  {
    if qs != [] {
      var init, last := qs[..|qs| - 1], qs[|qs| - 1];
      CasimirLinesExact(init, c2s);
      LinesForQExact(last, c2s);
      assert qs == init + [last];
      forall q, c2 | q in qs && c2 in c2s && c2 > 0 && NearMultiple(q, c2)
        ensures exists line :: line in CasimirLines(qs, c2s) && line.q == q && line.c2 == c2
      {
        if q != last {
          assert q in init;
        }
      }
    }
  }

  /** Since the remainder is never negative, the `abs` around it changes nothing. */
  lemma NearMultipleWithoutAbs(q: int, c2: int)
    requires c2 > 0
    ensures NearMultiple(q, c2) <==> q % c2 < 3 || c2 - q % c2 < 3
  {
  }

  /** The A5 4D weights, in the order the loop tries them. */
  const PossibleWeights: seq<int> := [-3, -1, 1, 3]

  /** w is the first weight, in list order, that makes |q - 4w| smallest. */
  predicate IsFirstBestWeight(q: int, w: int)
  {
    exists k :: 0 <= k < |PossibleWeights| && PossibleWeights[k] == w
      && (forall j :: 0 <= j < |PossibleWeights| ==> Abs(q - 4 * w) <= Abs(q - 4 * PossibleWeights[j]))
      && (forall j :: 0 <= j < k ==> Abs(q - 4 * w) < Abs(q - 4 * PossibleWeights[j]))
  }

  /** The weight loop of `create_a5_model`: the first minimiser of |q0| wins, by strict `<`. */
  method BestWeight(q: int) returns (bestFit: int, bestQ0: int)
    ensures IsFirstBestWeight(q, bestFit)
    ensures bestQ0 == q - 4 * bestFit
  {
    var found := false;
    var k := 0;
    bestFit, bestQ0 := 0, 0;
    for i := 0 to |PossibleWeights|
      invariant found <==> i > 0
      invariant found ==> 0 <= k < i && bestFit == PossibleWeights[k] && bestQ0 == q - 4 * bestFit
      invariant found ==> forall j :: 0 <= j < i ==> Abs(bestQ0) <= Abs(q - 4 * PossibleWeights[j])
      invariant found ==> forall j :: 0 <= j < k ==> Abs(bestQ0) < Abs(q - 4 * PossibleWeights[j])
    {
      var w := PossibleWeights[i];
      var q0 := q - 4 * w;
      if !found || Abs(q0) < Abs(bestQ0) {
        found, k := true, i;
        bestFit, bestQ0 := w, q0;
      }
    }
  }

  /** The first best weight is unique. */
  lemma FirstBestWeightUnique(q: int, w1: int, w2: int)
    requires IsFirstBestWeight(q, w1) && IsFirstBestWeight(q, w2)
    ensures w1 == w2
  {
    var k1 :| 0 <= k1 < |PossibleWeights| && PossibleWeights[k1] == w1
      && (forall j :: 0 <= j < |PossibleWeights| ==> Abs(q - 4 * w1) <= Abs(q - 4 * PossibleWeights[j]))
      && (forall j :: 0 <= j < k1 ==> Abs(q - 4 * w1) < Abs(q - 4 * PossibleWeights[j]));
    var k2 :| 0 <= k2 < |PossibleWeights| && PossibleWeights[k2] == w2
      && (forall j :: 0 <= j < |PossibleWeights| ==> Abs(q - 4 * w2) <= Abs(q - 4 * PossibleWeights[j]))
      && (forall j :: 0 <= j < k2 ==> Abs(q - 4 * w2) < Abs(q - 4 * PossibleWeights[j]));
    assert k1 == k2;
  }

  /**
   * For q above 8 the chosen weight is 3; for the electron's q = 0, -1 and
   * +1 tie at |q0| = 4 and the earlier, -1, is kept.
   */
  lemma BestWeightOfSamples(q: int, w: int)
    requires IsFirstBestWeight(q, w)
    ensures q > 8 ==> w == 3
    ensures q == 0 ==> w == -1
  {
    if q > 8 {
      assert IsFirstBestWeight(q, 3) by {
        assert PossibleWeights[3] == 3;
      }
      FirstBestWeightUnique(q, w, 3);
    } else if q == 0 {
      assert IsFirstBestWeight(q, -1) by {
        assert PossibleWeights[1] == -1;
      }
      FirstBestWeightUnique(q, w, -1);
    }
  }
}
