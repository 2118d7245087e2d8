/**
 * `quantum_number_analysis`: the integer side of the q = 4n study. Spacing of
 * q values within each category, divisibility counts, the first split
 * q = 3a + 4b, the tentative A5 labels from divisibility, the gaps in the
 * sorted q values and the extrapolation by the most common difference.
 */
module QuantumNumbers {
  import opened Wrappers
  import opened Basis
  import opened Strings
  import opened ParticleData
  import opened Tally
  import opened Sorting
  import opened Grouping

  /** The key of a plain `sorted(...)` on integers. */
  function Ident(x: int): int { x }

  function QOf(p: Record): int { p.q }

  /** `[p['q'] for p in particles]`. */
  function QsOf(ps: seq<Record>): (qs: seq<int>)
    ensures |qs| == |ps| && forall i :: 0 <= i < |ps| ==> qs[i] == ps[i].q
  {
    seq(|ps|, i requires 0 <= i < |ps| => ps[i].q)
  }

  // ---------------------------------------------------------------------------
  // Consecutive differences

  /** `[s[i + 1] - s[i] for i in range(len(s) - 1)]`. */
  function Diffs(s: seq<int>): (d: seq<int>)
    ensures |d| == if s == [] then 0 else |s| - 1
    ensures forall i :: 0 <= i < |d| ==> d[i] == s[i + 1] - s[i]
  {
    if |s| <= 1 then [] else [s[1] - s[0]] + Diffs(s[1..])
  }

  /** The differences add up to the last value minus the first. */
  lemma {:induction false} DiffsTelescope(s: seq<int>)
    requires |s| > 0
    ensures Sum(Diffs(s)) == s[|s| - 1] - s[0]
  {
    if |s| > 1 {
      DiffsTelescope(s[1..]);
      assert Diffs(s) == [s[1] - s[0]] + Diffs(s[1..]);
      assert Diffs(s)[1..] == Diffs(s[1..]);
    }
  }

  lemma {:induction false} AdjacentToSorted(s: seq<int>, i: int, j: int)
    requires forall k :: 0 <= k < |s| - 1 ==> s[k] <= s[k + 1]
    requires 0 <= i <= j < |s|
    ensures s[i] <= s[j]
    decreases j - i
  {
    if i < j {
      AdjacentToSorted(s, i + 1, j);
    }
  }

  /** A list is sorted exactly when none of its consecutive differences is negative. */
  lemma SortedIffDiffsNonnegative(s: seq<int>)
    ensures SortedBy(s, Ident) <==> forall i :: 0 <= i < |Diffs(s)| ==> Diffs(s)[i] >= 0
  {
    var d := Diffs(s);
    if forall i :: 0 <= i < |d| ==> d[i] >= 0 {
      forall i, j | 0 <= i < j < |s| ensures Ident(s[i]) <= Ident(s[j]) {
        assert forall k :: 0 <= k < |s| - 1 ==> s[k + 1] - s[k] == d[k];
        AdjacentToSorted(s, i, j);
      }
    }
    if SortedBy(s, Ident) {
      forall i | 0 <= i < |d| ensures d[i] >= 0 {
        assert i + 1 < |s| && d[i] == s[i + 1] - s[i];
        assert Ident(s[i]) <= Ident(s[i + 1]);
      }
    }
  }

  /** Every element of a sorted list lies between its first and its last element. */
  lemma SortedBounds(s: seq<int>, x: int)
    requires SortedBy(s, Ident) && x in s
    ensures s[0] <= x <= s[|s| - 1]
  {
    var i :| 0 <= i < |s| && s[i] == x;
    if 0 < i {
      assert Ident(s[0]) <= Ident(s[i]);
    }
    if i < |s| - 1 {
      assert Ident(s[i]) <= Ident(s[|s| - 1]);
    }
  }

  /** The first element of a sorted permutation is the minimum, the last the maximum. */
  lemma SortedEnds(qs: seq<int>, s: seq<int>)
    requires |qs| > 0 && multiset(s) == multiset(qs) && SortedBy(s, Ident)
    ensures s[0] == MinOf(qs) && s[|s| - 1] == MaxOf(qs)
  {
    assert |s| == |multiset(s)| == |qs|;
    var lo, hi := MinOf(qs), MaxOf(qs);
    assert s[0] in multiset(qs) && s[|s| - 1] in multiset(qs);
    assert s[0] in qs && s[|s| - 1] in qs;
    assert lo in multiset(s) && hi in multiset(s);
    SortedBounds(s, lo);
    SortedBounds(s, hi);
  }

  // ---------------------------------------------------------------------------
  // Spacing within each category

  /** `Differences` and `Most common difference` of one category. */
  datatype Spacing = Spacing(diffs: seq<int>, mostCommon: int, occurrences: nat)

  /**
   * The spacing printed for a category with at least three q values: the
   * differences of the sorted values and the `Counter.most_common(1)` entry,
   * which among differences of equal count is the one met first
   * (`Tally.MostCommonUnique` shows these clauses fix it).
   */
  function CategorySpacing(qs: seq<int>): (sp: Option<Spacing>)
    ensures sp.Some? <==> |qs| >= 3
    ensures sp.Some? ==> sp.value.diffs == Diffs(SortBy(qs, Ident))
    ensures sp.Some? ==> sp.value.mostCommon in sp.value.diffs
    ensures sp.Some? ==> sp.value.occurrences == Count(sp.value.diffs, sp.value.mostCommon) > 0
    ensures sp.Some? ==> forall y :: y in sp.value.diffs ==> Count(sp.value.diffs, y) <= sp.value.occurrences
    ensures sp.Some? ==> forall y :: y in sp.value.diffs[..FirstIndex(sp.value.diffs, sp.value.mostCommon)] ==>
      Count(sp.value.diffs, y) < sp.value.occurrences
  {
    if |qs| < 3 then None
    else
      var d := Diffs(SortBy(qs, Ident));
      var m := MostCommon(d);
      Some(Spacing(d, m, Count(d, m)))
  }

  /** The differences of a category are non-negative and add up to its range. */
  lemma SpacingSpansRange(qs: seq<int>)
    requires |qs| >= 3
    ensures var sp := CategorySpacing(qs).value;
      (forall i :: 0 <= i < |sp.diffs| ==> sp.diffs[i] >= 0) && Sum(sp.diffs) == MaxOf(qs) - MinOf(qs)
  {
    var s := SortBy(qs, Ident);
    SortedIffDiffsNonnegative(s);
    DiffsTelescope(s);
    SortedEnds(qs, s);
  }

  /** One category as printed: its name, its sorted q values and its spacing. */
  datatype CategoryLine = CategoryLine(category: string, sortedQ: seq<int>, spacing: Option<Spacing>)

  /** Some line is about category `c`. */
  predicate HasLine(lines: seq<CategoryLine>, c: string)
  {
    exists i :: 0 <= i < |lines| && lines[i].category == c
  }

  /** Some particle belongs to category `c`. */
  predicate HasParticle(particles: seq<Record>, c: string)
  {
    exists j :: 0 <= j < |particles| && particles[j].category == c
  }

  /** The loop over `categories.items()`. */
  method SpacingLines(groups: map<string, seq<int>>, order: seq<string>) returns (lines: seq<CategoryLine>)
    requires forall c :: c in order ==> c in groups
    ensures |lines| == |order|
    ensures forall i :: 0 <= i < |order| ==>
      lines[i].category == order[i] && lines[i].sortedQ == SortBy(groups[order[i]], Ident)
      && lines[i].spacing == CategorySpacing(groups[order[i]])
  {
    lines := [];
    for i := 0 to |order|
      invariant |lines| == i
      invariant forall j :: 0 <= j < i ==>
        lines[j].category == order[j] && lines[j].sortedQ == SortBy(groups[order[j]], Ident)
        && lines[j].spacing == CategorySpacing(groups[order[j]])
    {
      var qs := groups[order[i]];
      lines := lines + [CategoryLine(order[i], SortBy(qs, Ident), CategorySpacing(qs))];
    }
  }

  /**
   * The category block of `analyze_quantum_numbers`: one line per category
   * present, in the order the categories first appear, each with that
   * category's q values sorted and their spacing.
   */
  method CategorySpacings(particles: seq<Record>) returns (lines: seq<CategoryLine>)
    ensures forall i, j :: 0 <= i < j < |lines| ==> lines[i].category != lines[j].category
    ensures forall i, j :: 0 <= i < j < |lines| ==>
      FirstKeyIndex(particles, CategoryOf, lines[i].category) < FirstKeyIndex(particles, CategoryOf, lines[j].category)
    ensures forall j :: 0 <= j < |particles| ==> HasLine(lines, particles[j].category)
    ensures forall i :: 0 <= i < |lines| ==> HasParticle(particles, lines[i].category)
    ensures forall i :: 0 <= i < |lines| ==>
      var qs := Collect(particles, CategoryOf, QOf, lines[i].category);
      lines[i].sortedQ == SortBy(qs, Ident) && lines[i].spacing == CategorySpacing(qs)
  {
    var groups, order := GroupBy(particles, CategoryOf, QOf);
    lines := SpacingLines(groups, order);
    forall i | 0 <= i < |lines|
      ensures groups[order[i]] == Collect(particles, CategoryOf, QOf, lines[i].category)
    {
      assert order[i] in groups;
    }
    LinesCoverCategories(particles, order, lines);
  }

  lemma LinesCoverCategories(particles: seq<Record>, order: seq<string>, lines: seq<CategoryLine>)
    requires |lines| == |order| && forall i :: 0 <= i < |order| ==> lines[i].category == order[i]
    requires forall k :: k in order <==> exists j :: 0 <= j < |particles| && CategoryOf(particles[j]) == k
    ensures forall j :: 0 <= j < |particles| ==> HasLine(lines, particles[j].category)
    ensures forall i :: 0 <= i < |lines| ==> HasParticle(particles, lines[i].category)
  {
    forall j | 0 <= j < |particles|
      ensures HasLine(lines, particles[j].category)
    {
      var c := CategoryOf(particles[j]);
      assert c in order;
      var i :| 0 <= i < |order| && order[i] == c;
      assert 0 <= i < |lines| && lines[i].category == particles[j].category;
    }
    forall i | 0 <= i < |lines|
      ensures HasParticle(particles, lines[i].category)
    {
      assert order[i] in order;
      var j :| 0 <= j < |particles| && CategoryOf(particles[j]) == order[i];
      assert 0 <= j < |particles| && particles[j].category == lines[i].category;
    }
  }

  /** The printed q values of a category are exactly the q values of its particles. */
  lemma CategoryValues(particles: seq<Record>, c: string, v: int)
    ensures v in SortBy(Collect(particles, CategoryOf, QOf, c), Ident) <==>
            exists j :: 0 <= j < |particles| && particles[j].category == c && particles[j].q == v
  {
    var qs := Collect(particles, CategoryOf, QOf, c);
    CollectMembers(particles, CategoryOf, QOf, c, v);
    assert v in SortBy(qs, Ident) <==> v in multiset(qs);
  }

  // ---------------------------------------------------------------------------
  // Divisibility

  /** The divisors whose counts are printed. */
  const Divisors: seq<int> := [2, 3, 4, 5, 6, 8, 12]

  /** Python's `q % d == 0`; for a positive divisor Python and Dafny agree. */
  predicate Divides(d: int, q: int)
    requires d > 0
  {
    q % d == 0
  }

  /** `sum(1 for q in qs if q % d == 0)`. */
  function DivisibleCount(qs: seq<int>, d: int): (n: nat)
    requires d > 0
    ensures n <= |qs|
    ensures n == |qs| <==> forall i :: 0 <= i < |qs| ==> Divides(d, qs[i])
    ensures n == 0 <==> forall i :: 0 <= i < |qs| ==> !Divides(d, qs[i])
  {
    if qs == [] then 0
    else
      assert forall i :: 1 <= i < |qs| ==> qs[i] == qs[1..][i - 1];
      (if Divides(d, qs[0]) then 1 else 0) + DivisibleCount(qs[1..], d)
  }

  /** A divisor of `d` divides at least as many values as `d` does. */
  lemma {:induction false} DivisibleCountMonotone(qs: seq<int>, m: int, d: int)
    requires m > 0 && d > 0
    requires forall q :: Divides(d, q) ==> Divides(m, q)
    ensures DivisibleCount(qs, d) <= DivisibleCount(qs, m)
  {
    if qs != [] {
      DivisibleCountMonotone(qs[1..], m, d);
    }
  }

  /** Divisibility passes down the divisor pairs 8 -> 4 -> 2, 12 -> 6 -> 2, 6 -> 3 and 12 -> 4. */
  lemma DivisorPairs(q: int)
    ensures Divides(8, q) ==> Divides(4, q)
    ensures Divides(4, q) ==> Divides(2, q)
    ensures Divides(12, q) ==> Divides(6, q)
    ensures Divides(6, q) ==> Divides(2, q) && Divides(3, q)
    ensures Divides(12, q) ==> Divides(4, q)
  {
    assert q % 8 == 0 ==> q == 4 * (2 * (q / 8));
    assert q % 4 == 0 ==> q == 2 * (2 * (q / 4));
    assert q % 12 == 0 ==> q == 6 * (2 * (q / 12)) && q == 4 * (3 * (q / 12));
    assert q % 6 == 0 ==> q == 2 * (3 * (q / 6)) && q == 3 * (2 * (q / 6));
  }

  /** The printed counts nest along the divisor chains 2 | 4 | 8, 2 | 6 | 12, 3 | 6 and 4 | 12. */
  lemma DivisorChains(qs: seq<int>)
    ensures DivisibleCount(qs, 8) <= DivisibleCount(qs, 4) <= DivisibleCount(qs, 2)
    ensures DivisibleCount(qs, 12) <= DivisibleCount(qs, 6) <= DivisibleCount(qs, 2)
    ensures DivisibleCount(qs, 6) <= DivisibleCount(qs, 3)
    ensures DivisibleCount(qs, 12) <= DivisibleCount(qs, 4)
  {
    forall q | Divides(8, q) ensures Divides(4, q) { DivisorPairs(q); }
    DivisibleCountMonotone(qs, 4, 8);
    forall q | Divides(4, q) ensures Divides(2, q) { DivisorPairs(q); }
    DivisibleCountMonotone(qs, 2, 4);
    forall q | Divides(12, q) ensures Divides(6, q) { DivisorPairs(q); }
    DivisibleCountMonotone(qs, 6, 12);
    forall q | Divides(6, q) ensures Divides(2, q) { DivisorPairs(q); }
    DivisibleCountMonotone(qs, 2, 6);
    forall q | Divides(6, q) ensures Divides(3, q) { DivisorPairs(q); }
    DivisibleCountMonotone(qs, 3, 6);
    forall q | Divides(12, q) ensures Divides(4, q) { DivisorPairs(q); }
    DivisibleCountMonotone(qs, 4, 12);
  }

  /** The divisibility loop: one count per divisor, in the order printed. */
  method DivisibilityCounts(allQ: seq<int>) returns (counts: seq<(int, nat)>)
    ensures |counts| == |Divisors|
    ensures forall i :: 0 <= i < |Divisors| ==>
      counts[i].0 == Divisors[i] && counts[i].1 == DivisibleCount(allQ, Divisors[i])
  {
    counts := [];
    for i := 0 to |Divisors|
      invariant |counts| == i
      invariant forall j :: 0 <= j < i ==>
        counts[j].0 == Divisors[j] && counts[j].1 == DivisibleCount(allQ, Divisors[j])
    {
      var d := Divisors[i];
      counts := counts + [(d, DivisibleCount(allQ, d))];
    }
  }

  // ---------------------------------------------------------------------------
  // q = 3a + 4b

  /** `3a + 4b == q` with both coefficients in `range(-10, 11)`. */
  predicate SplitsAs(q: int, a: int, b: int)
  {
    -10 <= a <= 10 && -10 <= b <= 10 && 3 * a + 4 * b == q
  }

  /** The one `b` in range that completes `a`, if there is one. */
  function Completion(q: int, a: int): (b: Option<int>)
    requires -10 <= a <= 10
    ensures b.Some? ==> SplitsAs(q, a, b.value)
    ensures forall b' :: SplitsAs(q, a, b') ==> b == Some(b')
  {
    if (q - 3 * a) % 4 == 0 && -10 <= (q - 3 * a) / 4 <= 10 then Some((q - 3 * a) / 4) else None
  }

  /** The first split whose `a` is at least `a`, in the order of the nested loops. */
  function FirstSplitFrom(q: int, a: int): Option<(int, int)>
    requires -10 <= a <= 11
    decreases 11 - a
  {
    if a == 11 then None
    else
      match Completion(q, a)
      case Some(b) => Some((a, b))
      case None => FirstSplitFrom(q, a + 1)
  }

  /** The split the search stops at. */
  function FirstSplit(q: int): Option<(int, int)>
  {
    FirstSplitFrom(q, -10)
  }

  lemma {:induction false} FirstSplitFromExact(q: int, a: int)
    requires -10 <= a <= 11
    ensures var r := FirstSplitFrom(q, a);
      (r.Some? ==> a <= r.value.0 && SplitsAs(q, r.value.0, r.value.1)
                   && forall a', b' :: SplitsAs(q, a', b') && a <= a' ==> r.value.0 < a' || (r.value.0 == a' && r.value.1 == b'))
      && (r.None? ==> forall a', b' :: SplitsAs(q, a', b') ==> a' < a)
    decreases 11 - a
  {
    if a < 11 && Completion(q, a).None? {
      FirstSplitFromExact(q, a + 1);
    }
  }

  /**
   * The search finds a split exactly when one exists, and then the one with the
   * least `a` (and, `a` fixed, the only `b`).
   */
  lemma FirstSplitExact(q: int)
    ensures FirstSplit(q).Some? <==> exists a, b :: SplitsAs(q, a, b)
    ensures FirstSplit(q).Some? ==> var (a, b) := FirstSplit(q).value;
      SplitsAs(q, a, b) && forall a', b' :: SplitsAs(q, a', b') ==> a < a' || (a == a' && b == b')
  {
    FirstSplitFromExact(q, -10);
  }

  /** No q outside [-70, 70] has a split in range. */
  lemma NoSplitBeyondSeventy(q: int)
    requires q < -70 || q > 70
    ensures FirstSplit(q) == None
  {
    FirstSplitExact(q);
  }

  /** The inner loop over `b`, stopping at the first hit. */
  method SearchB(q: int, a: int) returns (b: Option<int>)
    requires -10 <= a <= 10
    ensures b == Completion(q, a)
  {
    for j := -10 to 11
      invariant forall b' :: -10 <= b' < j ==> 3 * a + 4 * b' != q
    {
      if 3 * a + 4 * j == q {
        return Some(j);
      }
    }
    return None;
  }

  /** Both loops of the `3a + 4b` search for one q value. */
  method SearchSplit(q: int) returns (r: Option<(int, int)>)
    ensures r == FirstSplit(q)
  {
    for a := -10 to 11
      invariant FirstSplit(q) == FirstSplitFrom(q, a)
    {
      var b := SearchB(q, a);
      if b.Some? {
        assert FirstSplitFrom(q, a) == Some((a, b.value));
        return Some((a, b.value));
      }
      assert FirstSplitFrom(q, a) == FirstSplitFrom(q, a + 1);
    }
    return None;
  }

  /** The lines printed by the `3a + 4b` search: particles with a split, in order. */
  function SplitLines(ps: seq<Record>): (lines: seq<(string, int, int, int)>)
  {
    if ps == [] then []
    else
      var p := ps[|ps| - 1];
      SplitLines(ps[..|ps| - 1]) + match FirstSplit(p.q) { case Some((a, b)) => [(p.name, p.q, a, b)] case None => [] }
  }

  /** Each printed line belongs to a particle, and its coefficients do split its q. */
  lemma {:induction false} SplitLinesSound(ps: seq<Record>)
    ensures |SplitLines(ps)| <= |ps|
    ensures forall l :: l in SplitLines(ps) ==>
      SplitsAs(l.1, l.2, l.3) && exists i :: 0 <= i < |ps| && ps[i].name == l.0 && ps[i].q == l.1
  {
    if ps != [] {
      var init := ps[..|ps| - 1];
      var p := ps[|ps| - 1];
      SplitLinesSound(init);
      FirstSplitExact(p.q);
      forall l | l in SplitLines(ps)
        ensures SplitsAs(l.1, l.2, l.3) && exists i :: 0 <= i < |ps| && ps[i].name == l.0 && ps[i].q == l.1
      {
        if l in SplitLines(init) {
          var i :| 0 <= i < |init| && init[i].name == l.0 && init[i].q == l.1;
          assert ps[i] == init[i];
        } else {
          assert ps[|ps| - 1] == p;
        }
      }
    }
  }

  /** The particle loop of the `3a + 4b` search. */
  method SplitAll(particles: seq<Record>) returns (lines: seq<(string, int, int, int)>)
    ensures lines == SplitLines(particles)
  {
    lines := [];
    for i := 0 to |particles|
      invariant lines == SplitLines(particles[..i])
    {
      var p := particles[i];
      var r := SearchSplit(p.q);
      assert particles[..i + 1][..i] == particles[..i];
      if r.Some? {
        lines := lines + [(p.name, p.q, r.value.0, r.value.1)];
      }
    }
    assert particles[..|particles|] == particles;
  }

  // ---------------------------------------------------------------------------
  // Tentative A5 labels

  /** `"5 "` when 5 divides q. */
  function FivePart(q: int): (s: string)
    ensures s != [] <==> q % 5 == 0
    ensures ('5' in s <==> q % 5 == 0) && '4' !in s && '3' !in s && '\'' !in s
  {
    if q % 5 == 0 then "5 " else ""
  }

  /** `"4 "` when 4 divides q. */
  function FourPart(q: int): (s: string)
    ensures s != [] <==> q % 4 == 0
    ensures ('4' in s <==> q % 4 == 0) && '5' !in s && '3' !in s && '\'' !in s
  {
    if q % 4 == 0 then "4 " else ""
  }

  /** `"3 "` for a positive multiple of 3, `"3' "` for any other multiple of 3. */
  function ThreePart(q: int): (s: string)
    ensures s != [] <==> q % 3 == 0
    ensures ('3' in s <==> q % 3 == 0) && ('\'' in s <==> q % 3 == 0 && q <= 0) && '5' !in s && '4' !in s
  {
    if q % 3 == 0 then (if q > 0 then "3 " else "3' ") else ""
  }

  /** The label before stripping. */
  function RawLabel(q: int): (raw: string)
    ensures raw != [] <==> q % 5 == 0 || q % 4 == 0 || q % 3 == 0
    ensures ('5' in raw <==> q % 5 == 0) && ('4' in raw <==> q % 4 == 0) && ('3' in raw <==> q % 3 == 0)
    ensures '\'' in raw <==> q % 3 == 0 && q <= 0
  {
    FivePart(q) + FourPart(q) + ThreePart(q)
  }

  /**
   * The stripped label: 5, 4 and 3 by divisibility, a prime on 3 for q <= 0,
   * and nothing when none of 3, 4, 5 divides q.
   */
  function RepLabel(q: int): (rep: string)
    ensures '5' in rep <==> q % 5 == 0
    ensures '4' in rep <==> q % 4 == 0
    ensures '3' in rep <==> q % 3 == 0
    ensures '\'' in rep <==> q % 3 == 0 && q <= 0
    ensures rep != [] <==> q % 5 == 0 || q % 4 == 0 || q % 3 == 0
  {
    var raw := RawLabel(q);
    var rep := Strip(raw);
    assert ('5' in rep <==> '5' in raw) && ('4' in rep <==> '4' in raw);
    assert ('3' in rep <==> '3' in raw) && ('\'' in rep <==> '\'' in raw);
    rep
  }

  /** One `(name, q, rep)` tuple of `assignments`. */
  datatype Tentative = Tentative(name: string, q: int, rep: string)

  function TentativeQ(t: Tentative): int { t.q }

  /** A particle gets a tuple when its raw label is non-empty. */
  predicate Listed(p: Record)
  {
    RawLabel(p.q) != []
  }

  function Entry(p: Record): Tentative
  {
    Tentative(p.name, p.q, RepLabel(p.q))
  }

  /** The `assignments` list before sorting: the listed particles' tuples, in order. */
  function Labelled(ps: seq<Record>): seq<Tentative>
  {
    Collect(ps, Listed, Entry, true)
  }

  /** The tentative-assignment loop, then `sorted(assignments, key=lambda x: x[1])`. */
  method TentativeAssignments(particles: seq<Record>) returns (sorted: seq<Tentative>)
    ensures sorted == SortBy(Labelled(particles), TentativeQ)
  {
    var assignments: seq<Tentative> := [];
    for i := 0 to |particles|
      invariant assignments == Labelled(particles[..i])
    {
      var p := particles[i];
      var rep := RawLabel(p.q);
      CollectStep(particles, Listed, Entry, true, i);
      if rep != [] {
        assignments := assignments + [Tentative(p.name, p.q, Strip(rep))];
      }
    }
    assert particles[..|particles|] == particles;
    sorted := SortBy(assignments, TentativeQ);
  }

  /** 3, 4 or 5 divides q. */
  predicate Labelable(q: int)
  {
    q % 5 == 0 || q % 4 == 0 || q % 3 == 0
  }

  lemma SortByMembers<T>(s: seq<T>, key: T -> int, x: T)
    ensures x in SortBy(s, key) <==> x in s
  {
    assert x in SortBy(s, key) <==> x in multiset(SortBy(s, key));
  }

  /**
   * The printed table is ordered by q and holds exactly the particles whose q
   * is divisible by 3, 4 or 5, each with its own label.
   */
  lemma TentativeTable(particles: seq<Record>, t: Tentative)
    ensures SortedBy(SortBy(Labelled(particles), TentativeQ), TentativeQ)
    ensures t in SortBy(Labelled(particles), TentativeQ) <==>
      exists i :: 0 <= i < |particles| && t == Entry(particles[i]) && Labelable(particles[i].q)
  {
    SortByMembers(Labelled(particles), TentativeQ, t);
    CollectMembers(particles, Listed, Entry, true, t);
    forall i | 0 <= i < |particles| ensures Listed(particles[i]) <==> Labelable(particles[i].q) {
      var _ := RawLabel(particles[i].q);
    }
  }

  // ---------------------------------------------------------------------------
  // Gaps

  /** Python's `list(range(lo, hi))`. */
  function Range(lo: int, hi: int): (r: seq<int>)
    ensures |r| == if lo < hi then hi - lo else 0
    ensures forall k :: 0 <= k < |r| ==> r[k] == lo + k
  {
    if lo >= hi then [] else seq(hi - lo, k requires 0 <= k < hi - lo => lo + k)
  }

  /** One printed gap: the two neighbours and the values missing between them. */
  datatype Gap = Gap(below: int, above: int, missing: seq<int>)

  /** The gaps among the first `n` consecutive pairs of `s`. */
  function GapsUpTo(s: seq<int>, n: nat): seq<Gap>
    requires n < |s| || n == 0
  {
    if n == 0 then []
    else GapsUpTo(s, n - 1) + if s[n] - s[n - 1] > 1 then [Gap(s[n - 1], s[n], Range(s[n - 1] + 1, s[n]))] else []
  }

  /** All gaps of `s`: `for i in range(len(s) - 1)`. */
  function Gaps(s: seq<int>): seq<Gap>
  {
    GapsUpTo(s, if s == [] then 0 else |s| - 1)
  }

  /** `x` is listed as missing in one of the gaps. */
  predicate Reported(gaps: seq<Gap>, x: int)
  {
    exists g :: g in gaps && x in g.missing
  }

  /** `x` lies strictly between two neighbours among the first `n + 1` values. */
  predicate Bracketed(s: seq<int>, n: nat, x: int)
    requires n < |s| || n == 0
  {
    exists i :: 0 < i <= n && s[i - 1] < x < s[i]
  }

  lemma ReportedConcat(a: seq<Gap>, b: seq<Gap>, x: int)
    ensures Reported(a + b, x) <==> Reported(a, x) || Reported(b, x)
  {
    if Reported(a + b, x) {
      var g :| g in a + b && x in g.missing;
      assert g in a || g in b;
    }
    if Reported(a, x) {
      var g :| g in a && x in g.missing;
      assert g in a + b;
    }
    if Reported(b, x) {
      var g :| g in b && x in g.missing;
      assert g in a + b;
    }
  }

  lemma RangeMembers(lo: int, hi: int, x: int)
    ensures x in Range(lo, hi) <==> lo <= x < hi
  {
    if lo <= x < hi {
      assert Range(lo, hi)[x - lo] == x;
    }
  }

  lemma ReportedStep(s: seq<int>, n: nat, x: int)
    requires 0 < n < |s|
    ensures Reported(GapsUpTo(s, n), x) <==> Reported(GapsUpTo(s, n - 1), x) || s[n - 1] < x < s[n]
  {
    var r := Range(s[n - 1] + 1, s[n]);
    RangeMembers(s[n - 1] + 1, s[n], x);
    var last := if s[n] - s[n - 1] > 1 then [Gap(s[n - 1], s[n], r)] else [];
    assert GapsUpTo(s, n) == GapsUpTo(s, n - 1) + last;
    ReportedConcat(GapsUpTo(s, n - 1), last, x);
    if s[n - 1] < x < s[n] {
      assert last[0] in last && x in last[0].missing;
    }
  }

  lemma BracketedStep(s: seq<int>, n: nat, x: int)
    requires 0 < n < |s|
    ensures Bracketed(s, n, x) <==> Bracketed(s, n - 1, x) || s[n - 1] < x < s[n]
  {
    if Bracketed(s, n, x) {
      var i :| 0 < i <= n && s[i - 1] < x < s[i];
      if i < n {
        assert Bracketed(s, n - 1, x);
      }
    }
    if Bracketed(s, n - 1, x) {
      var i :| 0 < i <= n - 1 && s[i - 1] < x < s[i];
      assert Bracketed(s, n, x);
    }
  }

  /** A value is reported missing exactly when it lies strictly between two neighbours. */
  lemma {:induction false} GapsUpToMembers(s: seq<int>, n: nat, x: int)
    requires n < |s| || n == 0
    ensures Reported(GapsUpTo(s, n), x) <==> Bracketed(s, n, x)
  {
    if n > 0 {
      GapsUpToMembers(s, n - 1, x);
      ReportedStep(s, n, x);
      BracketedStep(s, n, x);
    }
  }

  /** Walks down from a value above `x` to the pair that brackets `x`. */
  lemma {:induction false} Bracket(s: seq<int>, x: int, j: int) returns (i: int)
    requires 0 < j < |s| && s[0] < x < s[j] && x !in s
    ensures 0 < i <= j && s[i - 1] < x < s[i]
    decreases j
  {
    if s[j - 1] < x {
      i := j;
    } else {
      assert s[j - 1] != x;
      i := Bracket(s, x, j - 1);
    }
  }

  /** On a sorted list a value strictly between two neighbours is not in the list. */
  lemma BracketedAbsent(s: seq<int>, x: int, i: int)
    requires SortedBy(s, Ident)
    requires 0 < i < |s| && s[i - 1] < x < s[i]
    ensures s[0] < x < s[|s| - 1] && x !in s
  {
    assert Ident(s[0]) <= Ident(s[i - 1]) && Ident(s[i]) <= Ident(s[|s| - 1]);
    forall j | 0 <= j < |s| ensures s[j] != x {
      if j < i {
        assert Ident(s[j]) <= Ident(s[i - 1]);
      } else {
        assert Ident(s[i]) <= Ident(s[j]);
      }
    }
  }

  /**
   * On a sorted list the gaps report exactly the integers strictly between the
   * least and the greatest value that are not in the list.
   */
  lemma GapsAreMissingValues(s: seq<int>, x: int)
    requires SortedBy(s, Ident)
    ensures Reported(Gaps(s), x) <==> |s| > 0 && s[0] < x < s[|s| - 1] && x !in s
  {
    if s != [] {
      GapsUpToMembers(s, |s| - 1, x);
      if Bracketed(s, |s| - 1, x) {
        var i :| 0 < i <= |s| - 1 && s[i - 1] < x < s[i];
        BracketedAbsent(s, x, i);
      }
      if s[0] < x < s[|s| - 1] && x !in s {
        var i := Bracket(s, x, |s| - 1);
        assert Bracketed(s, |s| - 1, x);
      }
    }
  }

  /** The gap loop of `predict_new_particles`. */
  method FindGaps(allQ: seq<int>) returns (gaps: seq<Gap>)
    ensures gaps == Gaps(allQ)
  {
    gaps := [];
    var pairs := if allQ == [] then 0 else |allQ| - 1;
    for i := 0 to pairs
      invariant gaps == GapsUpTo(allQ, i)
    {
      var gap := allQ[i + 1] - allQ[i];
      if gap > 1 {
        var missing := Range(allQ[i] + 1, allQ[i + 1]);
        gaps := gaps + [Gap(allQ[i], allQ[i + 1], missing)];
      }
    }
  }

  // ---------------------------------------------------------------------------
  // Extrapolation

  /** The five predictions `last + i * d` for `i` in `range(1, 6)`. */
  method Extrapolate(last: int, d: int) returns (next: seq<int>)
    ensures |next| == 5
    ensures next[0] == last + d
    ensures Diffs(next) == [d, d, d, d]
  {
    next := [];
    for i := 1 to 6
      invariant |next| == i - 1
      invariant forall k :: 0 <= k < |next| ==> next[k] == last + (k + 1) * d
    {
      next := next + [last + i * d];
    }
    assert next[1] - next[0] == d && next[2] - next[1] == d;
    assert next[3] - next[2] == d && next[4] - next[3] == d;
  }

  /** What `predict_new_particles` computes. */
  datatype Prediction = Prediction(allQ: seq<int>, gaps: seq<Gap>, step: Option<int>, next: seq<int>)

  /**
   * `predict_new_particles`: the sorted q values, their gaps, and, when there
   * is at least one difference, five values continuing from the largest q by
   * the most common difference.
   */
  method PredictNewParticles(particles: seq<Record>) returns (p: Prediction)
    ensures p.allQ == SortBy(QsOf(particles), Ident)
    ensures p.gaps == Gaps(p.allQ)
    ensures p.step.Some? <==> |particles| >= 2
    ensures p.step.Some? ==> p.step.value == MostCommon(Diffs(p.allQ))
    ensures p.step.Some? ==> |p.next| == 5 && p.next[0] == p.allQ[|p.allQ| - 1] + p.step.value
                             && Diffs(p.next) == [p.step.value, p.step.value, p.step.value, p.step.value]
    ensures p.step.None? ==> p.next == []
  {
    var allQ := SortBy(QsOf(particles), Ident);
    var gaps := FindGaps(allQ);
    var diffs := Diffs(allQ);
    if diffs != [] {
      var d := MostCommon(diffs);
      var next := Extrapolate(allQ[|allQ| - 1], d);
      p := Prediction(allQ, gaps, Some(d), next);
    } else {
      p := Prediction(allQ, gaps, None, []);
    }
  }

  /**
   * The step is the most frequent gap between neighbours and is never
   * negative, so the predictions climb from the largest q.
   */
  lemma PredictionStep(qs: seq<int>)
    requires |qs| >= 2
    ensures var d := MostCommon(Diffs(SortBy(qs, Ident)));
      d >= 0 && forall y :: y in Diffs(SortBy(qs, Ident)) ==> Count(Diffs(SortBy(qs, Ident)), y) <= Count(Diffs(SortBy(qs, Ident)), d)
  {
    var s := SortBy(qs, Ident);
    SortedIffDiffsNonnegative(s);
  }
}
