/**
 * `neutrino_a5_model`: the three neutrinos placed on three of the four
 * weights of the 4-dimensional representation (every injective placement is
 * tried, in `itertools` order, and the first one with the smallest fit error
 * is kept), the representation given to every particle once the neutrino
 * weights are fixed, and the catalogue of all thirteen states.
 */
module NeutrinoModel {
  import opened Strings
  import opened ParticleData
  import opened A5Reps
  import opened ArgMin
  import A5CasimirRatio

  /** The `exact_q` dict of `load_data`, in this script's insertion order. */
  const NeutrinoExactQ: seq<(string, int)> := [
    ("electron_neutrino", -224), ("muon_neutrino", -180), ("tau_neutrino", -162),
    ("electron", 0), ("up_quark", 12), ("down_quark", 18), ("strange_quark", 44),
    ("charm_quark", 65), ("bottom_quark", 75), ("top_quark", 106),
    ("muon", 44), ("tau", 68), ("W_boson", 100), ("Z_boson", 100), ("higgs_boson", 103)]

  /**
   * The script's table lists the shared one, in another order, so its
   * `load_data` is `ParticleData.LoadData`: the same records, and the same
   * `KeyError` for a name missing from the table.
   */
  lemma NeutrinoExactQIsExactQ()
    ensures forall i :: 0 <= i < |NeutrinoExactQ| ==>
      NeutrinoExactQ[i].0 in ExactQ && ExactQ[NeutrinoExactQ[i].0] == NeutrinoExactQ[i].1
    ensures |NeutrinoExactQ| == 15
    ensures forall i, j :: 0 <= i < j < |NeutrinoExactQ| ==> NeutrinoExactQ[i].0 != NeutrinoExactQ[j].0
  {
  }

  /** `neutrino_q`, in insertion order. */
  const NeutrinoQ: seq<(string, int)> := [("electron_neutrino", -224), ("muon_neutrino", -180), ("tau_neutrino", -162)]

  /** `list(neutrino_q.keys())`. */
  const NeutrinoNames: seq<string> := ["electron_neutrino", "muon_neutrino", "tau_neutrino"]

  /** `weights`: the weights of the 4-dimensional representation. */
  const FourWeights: seq<int> := [-3, -1, 1, 3]

  /** The neutrino table agrees with `exact_q`, and the weight list is that of dimension 4. */
  lemma NeutrinoTables()
    ensures |NeutrinoQ| == |NeutrinoNames| == 3
    ensures forall i :: 0 <= i < 3 ==>
      NeutrinoQ[i].0 == NeutrinoNames[i] && NeutrinoNames[i] in ExactQ && ExactQ[NeutrinoNames[i]] == NeutrinoQ[i].1
    ensures NeutrinoNames[0] != NeutrinoNames[1] && NeutrinoNames[0] != NeutrinoNames[2] && NeutrinoNames[1] != NeutrinoNames[2]
    ensures FourWeights == Weights(4)
  {
  }

  /** `[x] + p` for every `p` of `ps`, in order. */
  function Prepend(x: int, ps: seq<seq<int>>): (qs: seq<seq<int>>)
    ensures |qs| == |ps| && forall i :: 0 <= i < |ps| ==> qs[i] == [x] + ps[i]
  {
    seq(|ps|, i requires 0 <= i < |ps| => [x] + ps[i])
  }

  lemma PrependOne(x: int, p: seq<int>)
    ensures Prepend(x, [p]) == [[x] + p]
  {
  }

  lemma PrependTwo(x: int, p: seq<int>, p': seq<int>)
    ensures Prepend(x, [p, p']) == [[x] + p, [x] + p']
  {
  }

  lemma PrependThree(x: int, p: seq<int>, p': seq<int>, p'': seq<int>)
    ensures Prepend(x, [p, p', p'']) == [[x] + p, [x] + p', [x] + p'']
  {
  }

  /**
   * `itertools.combinations(s, r)`: the length-`r` subsequences of `s`, those
   * holding `s[0]` first, i.e. in lexicographic order of the chosen positions.
   */
  function Combinations(s: seq<int>, r: nat): seq<seq<int>>
    decreases |s|
  {
    if r == 0 then [[]]
    else if |s| < r then []
    else Prepend(s[0], Combinations(s[1..], r - 1)) + Combinations(s[1..], r)
  }

  /** `s` without its element at position `i`. */
  function Without(s: seq<int>, i: nat): (t: seq<int>)
    requires i < |s|
    ensures |t| == |s| - 1
  {
    s[..i] + s[i + 1..]
  }

  /**
   * `itertools.permutations(s)`: for each position `i` in turn, `s[i]`
   * followed by every permutation of the rest.
   */
  function Permutations(s: seq<int>): seq<seq<int>>
    decreases |s|, |s| + 1
  {
    if s == [] then [[]] else PermutationsFrom(s, 0)
  }

  /** The permutations of `s` that start with `s[i]`, `s[i+1]`, ... */
  function PermutationsFrom(s: seq<int>, i: nat): seq<seq<int>>
    requires i <= |s|
    decreases |s|, |s| - i
  {
    if i == |s| then [] else Prepend(s[i], Permutations(Without(s, i))) + PermutationsFrom(s, i + 1)
  }

  lemma PermutationsOfOne(a: int)
    ensures Permutations([a]) == [[a]]
  {
    assert Without([a], 0) == [];
    assert Permutations([]) == [[]];
    assert PermutationsFrom([a], 1) == [];
    PrependOne(a, []);
    assert PermutationsFrom([a], 0) == Prepend(a, Permutations([])) + PermutationsFrom([a], 1);
    assert [a] + [] == [a];
    assert [[a]] + [] == [[a]];
    assert Permutations([a]) == PermutationsFrom([a], 0);
  }

  lemma PermutationsOfTwo(a: int, b: int)
    ensures Permutations([a, b]) == [[a, b], [b, a]]
  {
    var s := [a, b];
    assert Without(s, 0) == [b];
    assert Without(s, 1) == [a];
    PermutationsOfOne(a);
    PermutationsOfOne(b);
    PrependOne(a, [b]);
    PrependOne(b, [a]);
    assert PermutationsFrom(s, 2) == [];
    assert PermutationsFrom(s, 1) == Prepend(b, [[a]]) + [];
    assert PermutationsFrom(s, 0) == Prepend(a, [[b]]) + PermutationsFrom(s, 1);
    assert [a] + [b] == [a, b] && [b] + [a] == [b, a];
    assert Permutations(s) == PermutationsFrom(s, 0);
  }

  /** The order `itertools.permutations` produces for three elements. */
  lemma PermutationsOfThree(a: int, b: int, c: int)
    ensures Permutations([a, b, c]) == [[a, b, c], [a, c, b], [b, a, c], [b, c, a], [c, a, b], [c, b, a]]
  {
    var s := [a, b, c];
    assert Without(s, 0) == [b, c];
    assert Without(s, 1) == [a, c];
    assert Without(s, 2) == [a, b];
    PermutationsOfTwo(b, c);
    PermutationsOfTwo(a, c);
    PermutationsOfTwo(a, b);
    PrependTwo(a, [b, c], [c, b]);
    PrependTwo(b, [a, c], [c, a]);
    PrependTwo(c, [a, b], [b, a]);
    assert PermutationsFrom(s, 3) == [];
    assert PermutationsFrom(s, 2) == Prepend(c, [[a, b], [b, a]]) + [];
    assert PermutationsFrom(s, 1) == Prepend(b, [[a, c], [c, a]]) + PermutationsFrom(s, 2);
    assert PermutationsFrom(s, 0) == Prepend(a, [[b, c], [c, b]]) + PermutationsFrom(s, 1);
    assert [a] + [b, c] == [a, b, c] && [a] + [c, b] == [a, c, b];
    assert [b] + [a, c] == [b, a, c] && [b] + [c, a] == [b, c, a];
    assert [c] + [a, b] == [c, a, b] && [c] + [b, a] == [c, b, a];
    assert Permutations(s) == PermutationsFrom(s, 0);
  }

  /** The order `itertools.combinations` produces for three out of four elements. */
  lemma CombinationsThreeOfFour(a: int, b: int, c: int, d: int)
    ensures Combinations([a, b, c, d], 3) == [[a, b, c], [a, b, d], [a, c, d], [b, c, d]]
  {
    assert [a, b, c, d][1..] == [b, c, d];
    assert [b, c, d][1..] == [c, d];
    assert [c, d][1..] == [d];
    assert [d][1..] == [];
    PrependOne(d, []);
    assert [d] + [] == [d];
    assert Combinations([d], 1) == Prepend(d, Combinations([], 0)) + Combinations([], 1);
    assert Combinations([d], 1) == [[d]];
    PrependOne(c, []);
    assert [c] + [] == [c];
    assert Combinations([c, d], 1) == Prepend(c, Combinations([d], 0)) + Combinations([d], 1);
    assert Combinations([c, d], 1) == [[c], [d]];
    PrependOne(c, [d]);
    assert [c] + [d] == [c, d];
    assert Combinations([c, d], 2) == Prepend(c, Combinations([d], 1)) + Combinations([d], 2);
    assert Combinations([c, d], 2) == [[c, d]];
    PrependTwo(b, [c], [d]);
    assert [b] + [c] == [b, c] && [b] + [d] == [b, d];
    assert Combinations([b, c, d], 2) == Prepend(b, Combinations([c, d], 1)) + Combinations([c, d], 2);
    assert Combinations([b, c, d], 2) == [[b, c], [b, d], [c, d]];
    PrependOne(b, [c, d]);
    assert [b] + [c, d] == [b, c, d];
    assert Combinations([b, c, d], 3) == Prepend(b, Combinations([c, d], 2)) + Combinations([c, d], 3);
    assert Combinations([b, c, d], 3) == [[b, c, d]];
    PrependThree(a, [b, c], [b, d], [c, d]);
    assert [a] + [b, c] == [a, b, c] && [a] + [b, d] == [a, b, d] && [a] + [c, d] == [a, c, d];
    assert Combinations([a, b, c, d], 3) == Prepend(a, Combinations([b, c, d], 2)) + Combinations([b, c, d], 3);
  }

  /** The permutations of each combination, one combination after the other. */
  function PermutationsOfAll(combos: seq<seq<int>>): seq<seq<int>>
  {
    if combos == [] then [] else PermutationsOfAll(combos[..|combos| - 1]) + Permutations(combos[|combos| - 1])
  }

  /** The weight triples the two nested loops visit, in visiting order. */
  function Candidates(): seq<seq<int>>
  {
    PermutationsOfAll(Combinations(FourWeights, 3))
  }

  /** The visiting order for four weights: the permutations of each combination, combinations in order. */
  lemma VisitOrderOfFour(a: int, b: int, c: int, d: int)
    ensures PermutationsOfAll(Combinations([a, b, c, d], 3))
      == Permutations([a, b, c]) + Permutations([a, b, d]) + Permutations([a, c, d]) + Permutations([b, c, d])
  {
    var combos := [[a, b, c], [a, b, d], [a, c, d], [b, c, d]];
    CombinationsThreeOfFour(a, b, c, d);
    assert combos[..0] == [];
    assert combos[..1][..0] == combos[..0] && combos[..2][..1] == combos[..1];
    assert combos[..3][..2] == combos[..2] && combos[..4][..3] == combos[..3] && combos[..4] == combos;
    assert PermutationsOfAll(combos[..1]) == Permutations(combos[0]);
    assert PermutationsOfAll(combos[..2]) == Permutations(combos[0]) + Permutations(combos[1]);
    assert PermutationsOfAll(combos[..3]) == Permutations(combos[0]) + Permutations(combos[1]) + Permutations(combos[2]);
  }

  /** An injective placement of the three neutrinos on the weights of dimension 4. */
  predicate InjectiveWeights(t: seq<int>)
  {
    |t| == 3 && t[0] in Weights(4) && t[1] in Weights(4) && t[2] in Weights(4)
    && t[0] != t[1] && t[0] != t[2] && t[1] != t[2]
  }

  predicate OneOf(x: int, a: int, b: int, c: int)
  {
    x == a || x == b || x == c
  }

  /** `t` lists the three values `a`, `b`, `c` in some order, each once. */
  predicate Rearranges(t: seq<int>, a: int, b: int, c: int)
  {
    |t| == 3 && OneOf(t[0], a, b, c) && OneOf(t[1], a, b, c) && OneOf(t[2], a, b, c)
    && t[0] != t[1] && t[0] != t[2] && t[1] != t[2]
  }

  /** A permutation of three distinct values rearranges them. */
  lemma InPermutations(a: int, b: int, c: int, t: seq<int>)
    requires a != b && a != c && b != c
    requires t in Permutations([a, b, c])
    ensures Rearranges(t, a, b, c) && OneOf(a, t[0], t[1], t[2]) && OneOf(b, t[0], t[1], t[2]) && OneOf(c, t[0], t[1], t[2])
  {
    PermutationsOfThree(a, b, c);
  }

  /** Every rearrangement of three distinct values is one of their permutations. */
  lemma RearrangementInPermutations(a: int, b: int, c: int, t: seq<int>)
    requires a != b && a != c && b != c
    requires Rearranges(t, a, b, c)
    ensures t in Permutations([a, b, c])
  {
    PermutationsOfThree(a, b, c);
    assert t == [t[0], t[1], t[2]];
  }

  /** A triple holding a value outside `a`, `b`, `c` is none of their permutations. */
  lemma NotInPermutations(a: int, b: int, c: int, t: seq<int>, x: int)
    requires |t| == 3 && OneOf(x, t[0], t[1], t[2]) && !OneOf(x, a, b, c)
    ensures t !in Permutations([a, b, c])
  {
    PermutationsOfThree(a, b, c);
  }

  /** No triple is listed twice. */
  ghost predicate NoDuplicates(s: seq<seq<int>>)
  {
    forall i, j :: 0 <= i < j < |s| ==> s[i] != s[j]
  }

  lemma NoDuplicatesConcat(s: seq<seq<int>>, s': seq<seq<int>>)
    requires NoDuplicates(s) && NoDuplicates(s')
    requires forall t :: t in s ==> t !in s'
    ensures NoDuplicates(s + s')
  {
    var u := s + s';
    forall i, j | 0 <= i < j < |u| ensures u[i] != u[j] {
      if i < |s| && |s| <= j {
        assert u[i] in s && u[j] == s'[j - |s|];
      }
    }
  }

  lemma PermutationsOfThreeNoDuplicates(a: int, b: int, c: int)
    requires a != b && a != c && b != c
    ensures |Permutations([a, b, c])| == 6 && NoDuplicates(Permutations([a, b, c]))
  {
    PermutationsOfThree(a, b, c);
  }

  predicate OneOfFour(x: int, a: int, b: int, c: int, d: int)
  {
    x == a || x == b || x == c || x == d
  }

  /** Three distinct values out of four distinct ones, in some order. */
  predicate InjectiveInto(t: seq<int>, a: int, b: int, c: int, d: int)
  {
    |t| == 3 && OneOfFour(t[0], a, b, c, d) && OneOfFour(t[1], a, b, c, d) && OneOfFour(t[2], a, b, c, d)
    && t[0] != t[1] && t[0] != t[2] && t[1] != t[2]
  }

  /** An injective triple misses exactly one of the four values and rearranges the other three. */
  lemma InjectiveByMissingValue(t: seq<int>, a: int, b: int, c: int, d: int)
    requires a != b && a != c && a != d && b != c && b != d && c != d
    ensures InjectiveInto(t, a, b, c, d) <==>
      Rearranges(t, a, b, c) || Rearranges(t, a, b, d) || Rearranges(t, a, c, d) || Rearranges(t, b, c, d)
  {
  }

  /** The two nested loops visit exactly the injective triples. */
  lemma VisitedOfFourExact(a: int, b: int, c: int, d: int, t: seq<int>)
    requires a != b && a != c && a != d && b != c && b != d && c != d
    ensures t in PermutationsOfAll(Combinations([a, b, c, d], 3)) <==> InjectiveInto(t, a, b, c, d)
  {
    VisitOrderOfFour(a, b, c, d);
    InjectiveByMissingValue(t, a, b, c, d);
    if t in Permutations([a, b, c]) { InPermutations(a, b, c, t); }
    if t in Permutations([a, b, d]) { InPermutations(a, b, d, t); }
    if t in Permutations([a, c, d]) { InPermutations(a, c, d, t); }
    if t in Permutations([b, c, d]) { InPermutations(b, c, d, t); }
    if Rearranges(t, a, b, c) { RearrangementInPermutations(a, b, c, t); }
    if Rearranges(t, a, b, d) { RearrangementInPermutations(a, b, d, t); }
    if Rearranges(t, a, c, d) { RearrangementInPermutations(a, c, d, t); }
    if Rearranges(t, b, c, d) { RearrangementInPermutations(b, c, d, t); }
  }

  lemma FirstBlocksDisjoint(a: int, b: int, c: int, d: int)
    requires a != b && a != c && a != d && b != c && b != d && c != d
    ensures forall t :: t in Permutations([a, b, c]) ==> t !in Permutations([a, b, d])
  {
    forall t | t in Permutations([a, b, c]) ensures t !in Permutations([a, b, d]) {
      InPermutations(a, b, c, t);
      NotInPermutations(a, b, d, t, c);
    }
  }

  lemma LastBlocksDisjoint(a: int, b: int, c: int, d: int)
    requires a != b && a != c && a != d && b != c && b != d && c != d
    ensures forall t :: t in Permutations([a, c, d]) ==> t !in Permutations([b, c, d])
  {
    forall t | t in Permutations([a, c, d]) ensures t !in Permutations([b, c, d]) {
      InPermutations(a, c, d, t);
      NotInPermutations(b, c, d, t, a);
    }
  }

  /** The triples holding both `a` and `b` come first, the others after. */
  lemma HalvesDisjoint(a: int, b: int, c: int, d: int)
    requires a != b && a != c && a != d && b != c && b != d && c != d
    ensures forall t :: t in Permutations([a, b, c]) + Permutations([a, b, d]) ==>
      t !in Permutations([a, c, d]) + Permutations([b, c, d])
  {
    forall t | t in Permutations([a, b, c]) + Permutations([a, b, d])
      ensures t !in Permutations([a, c, d]) + Permutations([b, c, d])
    {
      if t in Permutations([a, b, c]) {
        InPermutations(a, b, c, t);
      } else {
        InPermutations(a, b, d, t);
      }
      NotInPermutations(a, c, d, t, b);
      NotInPermutations(b, c, d, t, a);
    }
  }

  /** The two nested loops visit 24 triples, none twice. */
  lemma VisitedOfFourDistinct(a: int, b: int, c: int, d: int)
    requires a != b && a != c && a != d && b != c && b != d && c != d
    ensures |PermutationsOfAll(Combinations([a, b, c, d], 3))| == 24
    ensures NoDuplicates(PermutationsOfAll(Combinations([a, b, c, d], 3)))
  {
    VisitOrderOfFour(a, b, c, d);
    var p0, p1, p2, p3 := Permutations([a, b, c]), Permutations([a, b, d]), Permutations([a, c, d]), Permutations([b, c, d]);
    PermutationsOfThreeNoDuplicates(a, b, c);
    PermutationsOfThreeNoDuplicates(a, b, d);
    PermutationsOfThreeNoDuplicates(a, c, d);
    PermutationsOfThreeNoDuplicates(b, c, d);
    FirstBlocksDisjoint(a, b, c, d);
    LastBlocksDisjoint(a, b, c, d);
    HalvesDisjoint(a, b, c, d);
    NoDuplicatesConcat(p0, p1);
    NoDuplicatesConcat(p2, p3);
    NoDuplicatesConcat(p0 + p1, p2 + p3);
    assert p0 + p1 + p2 + p3 == (p0 + p1) + (p2 + p3);
  }

  /** The search visits exactly the injective placements. */
  lemma CandidatesExact(t: seq<int>)
    ensures t in Candidates() <==> InjectiveWeights(t)
  {
    assert Weights(4) == [-3, -1, 1, 3];
    assert InjectiveWeights(t) <==> InjectiveInto(t, -3, -1, 1, 3);
    VisitedOfFourExact(-3, -1, 1, 3, t);
  }

  /** Each placement is visited once: 24 = 4 * 3 * 2 distinct triples. */
  lemma CandidatesDistinct()
    ensures |Candidates()| == 24 && NoDuplicates(Candidates())
  {
    VisitedOfFourDistinct(-3, -1, 1, 3);
  }

  /** Every visited placement has one weight per neutrino. */
  lemma CandidateLength(k: int)
    requires 0 <= k < |Candidates()|
    ensures |Candidates()[k]| == 3
  {
    CandidatesExact(Candidates()[k]);
  }

  /** `dict(zip(neutrino_names, perm))`. */
  function AssignmentOf(perm: seq<int>): (m: map<string, int>)
    requires |perm| == 3
    ensures m.Keys == {"electron_neutrino", "muon_neutrino", "tau_neutrino"}
    ensures forall i :: 0 <= i < 3 ==> m[NeutrinoNames[i]] == perm[i]
  {
    map[NeutrinoNames[0] := perm[0], NeutrinoNames[1] := perm[1], NeutrinoNames[2] := perm[2]]
  }

  /** Every visited placement gives each neutrino its own weight of dimension 4. */
  lemma AssignmentInjective(k: int)
    requires 0 <= k < |Candidates()|
    ensures |Candidates()[k]| == 3
    ensures var m := AssignmentOf(Candidates()[k]);
      (forall n :: n in m ==> m[n] in Weights(4))
      && (forall n1, n2 :: n1 in m && n2 in m && n1 != n2 ==> m[n1] != m[n2])
  {
    CandidatesExact(Candidates()[k]);
  }

  /** The inner loop, over the permutations of one combination. */
  method ScanPermutations(fitError: seq<int> -> real, combo: seq<int>,
                          ghost seen: seq<seq<int>>, found: bool, ghost k: int, best: seq<int>, bestError: real)
    returns (ghost seen': seq<seq<int>>, found': bool, ghost k': int, best': seq<int>, bestError': real)
    requires BestSoFar(seen, fitError, found, k, best, bestError)
    ensures seen' == seen + Permutations(combo)
    ensures BestSoFar(seen', fitError, found', k', best', bestError')
  {
    var perms := Permutations(combo);
    seen', found', k', best', bestError' := seen, found, k, best, bestError;
    for j := 0 to |perms|
      invariant seen' == seen + perms[..j]
      invariant BestSoFar(seen', fitError, found', k', best', bestError')
    {
      var perm := perms[j];
      var error := fitError(perm);
      VisitKeepsBest(seen', fitError, found', k', best', bestError', perm);
      assert perms[..j + 1] == perms[..j] + [perm];
      if !found' || error < bestError' {
        k' := |seen'|;
        best', bestError' := perm, error;
      }
      found' := true;
      seen' := seen' + [perm];
    }
    assert perms[..|perms|] == perms;
  }

  /** Once every placement is visited, the kept one is the first minimiser of all 24. */
  lemma SearchEnd(seen: seq<seq<int>>, fitError: seq<int> -> real, found: bool, k: int, best: seq<int>, bestError: real)
    requires seen == PermutationsOfAll(Combinations(FourWeights, 3))
    requires BestSoFar(seen, fitError, found, k, best, bestError)
    ensures IsFirstMin(Candidates(), fitError, k) && Candidates()[k] == best && |best| == 3
    ensures bestError == fitError(best)
  {
    CandidatesDistinct();
    CandidateLength(k);
  }

  /** The two nested loops over `combinations(weights, 3)` and the permutations of each. */
  method SearchPlacements(fitError: seq<int> -> real, weights: seq<int>)
    returns (found: bool, ghost k: int, best: seq<int>, bestError: real)
    ensures BestSoFar(PermutationsOfAll(Combinations(weights, 3)), fitError, found, k, best, bestError)
  {
    var combos := Combinations(weights, 3);
    best, bestError, found, k := [], 0.0, false, 0;
    ghost var seen: seq<seq<int>> := [];
    for r := 0 to |combos|
      invariant seen == PermutationsOfAll(combos[..r])
      invariant BestSoFar(seen, fitError, found, k, best, bestError)
    {
      assert combos[..r + 1][..r] == combos[..r];
      seen, found, k, best, bestError := ScanPermutations(fitError, combos[r], seen, found, k, best, bestError);
    }
    assert combos[..|combos|] == combos;
  }

  /**
   * `find_neutrino_weights` with the least-squares fit error of a placement
   * given as `fitError`: the kept assignment is that of the first placement
   * with the smallest error, since the update needs `error < best_error`.
   */
  method FindNeutrinoWeights(fitError: seq<int> -> real) returns (bestAssignment: map<string, int>, bestError: real)
    ensures exists k :: (IsFirstMin(Candidates(), fitError, k) && |Candidates()[k]| == 3
      && bestAssignment == AssignmentOf(Candidates()[k]) && bestError == fitError(Candidates()[k]))
  {
    var found, best;
    ghost var k;
    found, k, best, bestError := SearchPlacements(fitError, FourWeights);
    SearchEnd(PermutationsOfAll(Combinations(FourWeights, 3)), fitError, found, k, best, bestError);
    bestAssignment := AssignmentOf(best);
  }

  /** One record of `assignments` in `unified_a5_model`. */
  datatype UnifiedAssignment = UnifiedAssignment(name: string, q: int, dim: int, w: int, cNorm: int)

  /**
   * The branch chain of `unified_a5_model` for one particle, as (dim, w, C_norm).
   * C_norm is always dim^2 - 1, and the weight lies in the weight list of its
   * dimension whenever the neutrino weights given do.
   */
  function UnifiedRep(name: string, q: int, neutrinoWeights: map<string, int>): (r: (int, int, int))
    ensures r.0 in {3, 4, 5} && r.2 == r.0 * r.0 - 1
    ensures (name in neutrinoWeights ==> neutrinoWeights[name] in Weights(4)) ==> r.1 in Weights(r.0)
    ensures name in neutrinoWeights ==> r.0 == 4 && r.1 == neutrinoWeights[name]
    ensures name !in neutrinoWeights && name == "electron" ==> r.0 == 3 && r.1 == -1
    ensures name !in neutrinoWeights && name != "electron" && Contains(name, "quark") ==>
      r.0 == 3 && r.1 == q % 3 - 1
    ensures name !in neutrinoWeights && name != "electron" && !Contains(name, "quark") && name in ["muon", "tau"] ==>
      r.0 == 4 && r.1 == (if name == "muon" then -3 else -1)
    ensures name !in neutrinoWeights && name != "electron" && !Contains(name, "quark") && name !in ["muon", "tau"] ==>
      r.0 == 5 && r.1 == (if name == "W_boson" then -2 else if name == "Z_boson" then -1 else 0)
  {
    if name in neutrinoWeights then (4, neutrinoWeights[name], 15)
    else if name == "electron" then (3, -1, 8)
    else if Contains(name, "quark") then
      var wMod := q % 3;
      (3, if wMod == 0 then -1 else if wMod == 1 then 0 else 1, 8)
    else if name in ["muon", "tau"] then (4, if name == "muon" then -3 else -1, 15)
    else (5, if name == "W_boson" then -2 else if name == "Z_boson" then -1 else 0, 24)
  }

  /** The particle loop of `unified_a5_model`. */
  method UnifiedA5Model(particles: seq<Record>, neutrinoWeights: map<string, int>) returns (assignments: seq<UnifiedAssignment>)
    ensures |assignments| == |particles|
    ensures forall i :: 0 <= i < |particles| ==>
      var r := UnifiedRep(particles[i].name, particles[i].q, neutrinoWeights);
      assignments[i] == UnifiedAssignment(particles[i].name, particles[i].q, r.0, r.1, r.2)
  {
    assignments := [];
    for i := 0 to |particles|
      invariant |assignments| == i
      invariant forall j :: 0 <= j < i ==>
        var r := UnifiedRep(particles[j].name, particles[j].q, neutrinoWeights);
        assignments[j] == UnifiedAssignment(particles[j].name, particles[j].q, r.0, r.1, r.2)
    {
      var p := particles[i];
      var r := UnifiedRep(p.name, p.q, neutrinoWeights);
      assignments := assignments + [UnifiedAssignment(p.name, p.q, r.0, r.1, r.2)];
    }
  }

  /**
   * With the neutrino weights the search returns, every particle gets a state
   * of the catalogue and the normalised Casimir value of its dimension.
   */
  lemma UnifiedStatesInCatalogue(name: string, q: int, k: int)
    requires 0 <= k < |Candidates()|
    ensures |Candidates()[k]| == 3
    ensures var r := UnifiedRep(name, q, AssignmentOf(Candidates()[k]));
      (r.0, r.1) in States && r.2 == A5CasimirRatio.CasimirNormalized(r.0)
  {
    AssignmentInjective(k);
    var r := UnifiedRep(name, q, AssignmentOf(Candidates()[k]));
    WeightsExact(r.0, r.1);
    StatesComplete();
  }

  /** `all_states` of `predict_all_states`: (rep, dim, C_norm, w). */
  const PredictStates: seq<(string, int, int, int)> := [
    ("1D", 1, 0, 0),
    ("3D", 3, 8, -1), ("3D", 3, 8, 0), ("3D", 3, 8, 1),
    ("4D", 4, 15, -3), ("4D", 4, 15, -1), ("4D", 4, 15, 1), ("4D", 4, 15, 3),
    ("5D", 5, 24, -2), ("5D", 5, 24, -1), ("5D", 5, 24, 0), ("5D", 5, 24, 1), ("5D", 5, 24, 2)]

  /** The thirteen states of the catalogue, each with C_norm = dim^2 - 1. */
  lemma PredictStatesCatalogue()
    ensures |PredictStates| == |States| == 13
    ensures forall i :: 0 <= i < |PredictStates| ==>
      (PredictStates[i].1, PredictStates[i].3) == States[i] && PredictStates[i].2 == PredictStates[i].1 * PredictStates[i].1 - 1
    ensures PredictStates == A5CasimirRatio.AllStates
  {
  }
}
