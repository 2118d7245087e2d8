/**
 * The decomposer of `q_pattern_analysis.express_q_as_combination`: writing q as
 * 8a + 15b + 24c + d by brute force over a box of triples, keeping either the
 * best fit or every fit within a tolerance.
 */
module Decompose {
  import opened Basis

  /** The tuple (a, b, c, d) of one decomposition q = 8a + 15b + 24c + d. */
  datatype Fit = Fit(t: Triple, d: int)

  /** The ranges of the best-fit search: a in [-30, 30], b in [-20, 20], c in [-10, 10]. */
  const FitBox := Box(-30, 31, -20, 21, -10, 11)

  /** A triple of the search box whose offset passes the `abs(d) < 20` test. */
  predicate Near(q: int, t: Triple)
  {
    InBox(t, FitBox) && Abs(q - Eval(t)) < 20
  }

  /** The q for which some triple of the box passes the test (shown by `NearExactlyInRange`). */
  predicate InFitRange(q: int)
  {
    -800 < q < 800
  }

  /**
   * A passing triple for 0 <= q < 800: as many 24s, then 15s, then 8s as the
   * box allows; negative q use the mirrored triple.
   */
  function NearWitness(q: int): (t: Triple)
    requires InFitRange(q)
    ensures Near(q, t)
  {
    var m := Abs(q);
    var c := if m / 24 < 10 then m / 24 else 10;
    var r1 := m - 24 * c;
    var b := if r1 / 15 < 20 then r1 / 15 else 20;
    var r2 := r1 - 15 * b;
    var a := if r2 / 8 < 30 then r2 / 8 else 30;
    if q >= 0 then Triple(a, b, c) else Triple(-a, -b, -c)
  }

  /** Only q strictly between -800 and 800 can pass: |8a + 15b + 24c| <= 780 on the box. */
  lemma NearInRange(q: int, t: Triple)
    requires Near(q, t)
    ensures InFitRange(q)
  {
  }

  /** Some triple passes the `abs(d) < 20` test exactly when -800 < q < 800. */
  lemma NearExactlyInRange(q: int)
    ensures (exists t :: Near(q, t)) <==> InFitRange(q)
  {
    if InFitRange(q) {
      assert Near(q, NearWitness(q));
    }
    forall t | Near(q, t) ensures InFitRange(q) {
      NearInRange(q, t);
    }
  }

  /**
   * What the search keeps: when some triple passes the test, a passing triple
   * with its exact offset, whose |d| is minimal over the whole box and strictly
   * smaller than that of every passing triple the loops visit earlier;
   * otherwise the initial (0, 0, 0, 0).
   */
  ghost predicate IsBestFit(q: int, fit: Fit)
  {
    if InFitRange(q) then
      Near(q, fit.t) && fit.d == q - Eval(fit.t)
      && (forall t :: InBox(t, FitBox) ==> Abs(fit.d) <= Abs(q - Eval(t)))
      && (forall t :: Near(q, t) && LexLess(t, fit.t) ==> Abs(fit.d) < Abs(q - Eval(t)))
    else
      fit == Fit(Triple(0, 0, 0), 0)
  }

  /** The printed error of a triple: |d| for d = q - (8a + 15b + 24c). */
  function Err(q: int, t: Triple): nat
  {
    Abs(q - Eval(t))
  }

  /** `fit` is at least as good as `t`, and strictly better when `t` comes first. */
  predicate Beats(q: int, fit: Fit, t: Triple)
  {
    Abs(fit.d) <= Err(q, t) && (LexLess(t, fit.t) ==> Abs(fit.d) < Err(q, t))
  }

  /** The loop state after visiting every triple before `cur`. */
  ghost predicate SearchInv(q: int, cur: Triple, found: bool, fit: Fit)
  {
    (found ==> Near(q, fit.t) && fit.d == q - Eval(fit.t) && LexLess(fit.t, cur))
    && (!found ==> fit == Fit(Triple(0, 0, 0), 0))
    && forall t :: Near(q, t) && LexLess(t, cur) ==> found && Beats(q, fit, t)
  }

  lemma SearchInvIntro(q: int, cur: Triple, found: bool, fit: Fit)
    requires found ==> Near(q, fit.t) && fit.d == q - Eval(fit.t) && LexLess(fit.t, cur)
    requires !found ==> fit == Fit(Triple(0, 0, 0), 0)
    requires forall t :: Near(q, t) && LexLess(t, cur) ==> found && Beats(q, fit, t)
    ensures SearchInv(q, cur, found, fit)
  {
  }

  /** Moving `cur` past nothing in the box keeps the invariant. */
  lemma SearchInvMove(q: int, cur: Triple, next: Triple, found: bool, fit: Fit)
    requires forall t :: InBox(t, FitBox) ==> (LexLess(t, cur) <==> LexLess(t, next))
    requires SearchInv(q, cur, found, fit)
    ensures SearchInv(q, next, found, fit)
  {
    assert found ==> InBox(fit.t, FitBox);
    SearchInvIntro(q, next, found, fit);
  }

  /** The triples before (a, b, c + 1) are those before (a, b, c) and (a, b, c) itself. */
  lemma LexNext(t: Triple, cur: Triple)
    ensures LexLess(t, Triple(cur.a, cur.b, cur.c + 1)) <==> LexLess(t, cur) || t == cur
  {
  }

  /** Visiting `cur` and keeping the old best keeps the invariant. */
  lemma SearchKeep(q: int, a: int, b: int, c: int, found: bool, fit: Fit)
    requires SearchInv(q, Triple(a, b, c), found, fit)
    requires Near(q, Triple(a, b, c)) ==> found && Abs(fit.d) <= Err(q, Triple(a, b, c))
    ensures SearchInv(q, Triple(a, b, c + 1), found, fit)
  {
    var cur, next := Triple(a, b, c), Triple(a, b, c + 1);
    LexNext(fit.t, cur);
    forall t | Near(q, t) && LexLess(t, next)
      ensures found && Beats(q, fit, t)
    {
      LexNext(t, cur);
      if t == cur {
        assert found && LexLess(fit.t, cur);
      } else {
        assert LexLess(t, cur);
      }
    }
    SearchInvIntro(q, next, found, fit);
  }

  /** Visiting `cur` and taking it as the new best keeps the invariant. */
  lemma SearchTake(q: int, a: int, b: int, c: int, d: int, found: bool, fit: Fit)
    requires SearchInv(q, Triple(a, b, c), found, fit) && d == q - Eval(Triple(a, b, c))
    requires Near(q, Triple(a, b, c)) && (found ==> Err(q, Triple(a, b, c)) < Abs(fit.d))
    ensures SearchInv(q, Triple(a, b, c + 1), true, Fit(Triple(a, b, c), d))
  {
    var cur, next := Triple(a, b, c), Triple(a, b, c + 1);
    LexNext(cur, cur);
    forall t | Near(q, t) && LexLess(t, next)
      ensures Beats(q, Fit(cur, q - Eval(cur)), t)
    {
      LexNext(t, cur);
    }
    SearchInvIntro(q, next, true, Fit(cur, q - Eval(cur)));
  }

  /**
   * The body of the innermost loop: d = q - (8a + 15b + 24c) replaces the best
   * fit when |d| < 20 and |d| is strictly below the best error so far.
   */
  method VisitTriple(q: int, a: int, b: int, c: int, found: bool, fit: Fit) returns (found': bool, fit': Fit)
    requires InBox(Triple(a, b, c), FitBox) && SearchInv(q, Triple(a, b, c), found, fit)
    ensures SearchInv(q, Triple(a, b, c + 1), found', fit')
  {
    found', fit' := found, fit;
    var calculated := a * 8 + b * 15 + c * 24;
    var d := q - calculated;
    if Abs(d) < 20 {
      var err := Abs(d);
      if !found || err < Abs(fit.d) {
        SearchTake(q, a, b, c, d, found, fit);
        found', fit' := true, Fit(Triple(a, b, c), d);
      } else {
        SearchKeep(q, a, b, c, found, fit);
      }
    } else {
      SearchKeep(q, a, b, c, found, fit);
    }
  }

  /** The innermost loop, over c, for one (a, b). */
  method SearchLine(q: int, a: int, b: int, found: bool, fit: Fit) returns (found': bool, fit': Fit)
    requires FitBox.aLo <= a < FitBox.aHi && FitBox.bLo <= b < FitBox.bHi
    requires SearchInv(q, Triple(a, b, -10), found, fit)
    ensures SearchInv(q, Triple(a, b + 1, -10), found', fit')
  {
    found', fit' := found, fit;
    for c := -10 to 11
      invariant SearchInv(q, Triple(a, b, c), found', fit')
    {
      found', fit' := VisitTriple(q, a, b, c, found', fit');
    }
    SearchInvMove(q, Triple(a, b, 11), Triple(a, b + 1, -10), found', fit');
  }

  /** The middle loop, over b, for one a. */
  method SearchPlane(q: int, a: int, found: bool, fit: Fit) returns (found': bool, fit': Fit)
    requires FitBox.aLo <= a < FitBox.aHi
    requires SearchInv(q, Triple(a, -20, -10), found, fit)
    ensures SearchInv(q, Triple(a + 1, -20, -10), found', fit')
  {
    found', fit' := found, fit;
    for b := -20 to 21
      invariant SearchInv(q, Triple(a, b, -10), found', fit')
    {
      found', fit' := SearchLine(q, a, b, found', fit');
    }
    SearchInvMove(q, Triple(a, 21, -10), Triple(a + 1, -20, -10), found', fit');
  }

  /**
   * The best-fit loop of `express_q_as_combination` for one q: `best_error`
   * starts at infinity (`found` false) and is replaced only on a strictly
   * smaller error. `error` is the printed |q - q_calc|.
   */
  method BestFitWithOffset(q: int) returns (fit: Fit, error: nat)
    ensures IsBestFit(q, fit)
    ensures error == if InFitRange(q) then 0 else Abs(q)
  {
    var found := false;
    fit := Fit(Triple(0, 0, 0), 0);
    for a := -30 to 31
      invariant SearchInv(q, Triple(a, -20, -10), found, fit)
    {
      found, fit := SearchPlane(q, a, found, fit);
    }
    SearchDone(q, found, fit);
    SearchDoneFound(q, found, fit);
    SearchDoneCalc(q, found, fit);
    var qCalc := Eval(fit.t) + fit.d;
    error := Abs(q - qCalc);
  }

  /** After the last triple the invariant gives the description of the result. */
  lemma SearchDone(q: int, found: bool, fit: Fit)
    requires SearchInv(q, Triple(31, -20, -10), found, fit)
    ensures IsBestFit(q, fit)
  {
    SearchDoneFound(q, found, fit);
    if found {
      SearchDoneBest(q, fit);
    }
  }

  /** What the printed error |q - q_calc| is after the search. */
  lemma SearchDoneCalc(q: int, found: bool, fit: Fit)
    requires found <==> InFitRange(q)
    requires found ==> fit.d == q - Eval(fit.t)
    requires !found ==> fit == Fit(Triple(0, 0, 0), 0)
    ensures Abs(q - (Eval(fit.t) + fit.d)) == if InFitRange(q) then 0 else Abs(q)
  {
  }

  lemma SearchDoneFound(q: int, found: bool, fit: Fit)
    requires SearchInv(q, Triple(31, -20, -10), found, fit)
    ensures found <==> InFitRange(q)
    ensures found ==> fit.d == q - Eval(fit.t)
    ensures !found ==> fit == Fit(Triple(0, 0, 0), 0)
  {
    if found {
      NearInRange(q, fit.t);
    }
    if InFitRange(q) {
      var t := NearWitness(q);
      assert LexLess(t, Triple(31, -20, -10));
    }
  }

  lemma SearchDoneBest(q: int, fit: Fit)
    requires SearchInv(q, Triple(31, -20, -10), true, fit)
    ensures forall u :: InBox(u, FitBox) ==> Abs(fit.d) <= Err(q, u)
    ensures forall u :: Near(q, u) && LexLess(u, fit.t) ==> Abs(fit.d) < Err(q, u)
  {
    forall u | InBox(u, FitBox) ensures Abs(fit.d) <= Err(q, u) {
      assert LexLess(u, Triple(31, -20, -10));
    }
  }

  /**
   * Every q in [-240, 136) is hit exactly: with k = q div 8 and r = q mod 8,
   * 8(k + 2r) + 15(-r) = q, and the triple lies in the box.
   */
  lemma ExactWitness(q: int, k: int, r: int)
    requires -240 <= q < 136 && q == 8 * k + r && 0 <= r < 8
    ensures Near(q, Triple(k + 2 * r, -r, 0)) && Eval(Triple(k + 2 * r, -r, 0)) == q
  {
  }

  /** For q in [-240, 136) the kept fit has offset 0, so it reproduces q exactly. */
  lemma BestFitExact(q: int, fit: Fit)
    requires -240 <= q < 136 && IsBestFit(q, fit)
    ensures fit.d == 0 && Eval(fit.t) == q
  {
    var k, r := q / 8, q % 8;
    var w := Triple(k + 2 * r, -r, 0);
    ExactWitness(q, k, r);
    assert InFitRange(q);
    assert InBox(w, FitBox);
    assert Err(q, w) == 0;
  }

  /** The search result is determined: at most one fit meets the description. */
  lemma BestFitUnique(q: int, f1: Fit, f2: Fit)
    requires IsBestFit(q, f1) && IsBestFit(q, f2)
    ensures f1 == f2
  {
  }

  /** The ranges of the exhaustive listing: a, b, c in [-10, 10]. */
  const ListBox := Box(-10, 11, -10, 11, -10, 11)

  /** A triple of the listing box whose offset passes `abs(d) <= 10`. */
  predicate Listed(q: int, t: Triple)
  {
    InBox(t, ListBox) && Abs(q - Eval(t)) <= 10
  }

  predicate StrictlyLexSorted(reps: seq<Fit>)
  {
    forall i, j :: 0 <= i < j < |reps| ==> LexLess(reps[i].t, reps[j].t)
  }

  /**
   * The `representations` list for one q: exactly the passing triples with
   * their offsets, each once, in loop order.
   */
  ghost predicate IsRepresentationList(q: int, reps: seq<Fit>)
  {
    (forall r :: r in reps ==> Listed(q, r.t) && r.d == q - Eval(r.t))
    && (forall t :: Listed(q, t) ==> Fit(t, q - Eval(t)) in reps)
    && StrictlyLexSorted(reps)
  }

  ghost predicate ListInv(q: int, cur: Triple, reps: seq<Fit>)
  {
    (forall r :: r in reps ==> Listed(q, r.t) && r.d == q - Eval(r.t) && LexLess(r.t, cur))
    && (forall t :: Listed(q, t) && LexLess(t, cur) ==> Fit(t, q - Eval(t)) in reps)
    && StrictlyLexSorted(reps)
  }

  lemma ListInvNextB(q: int, a: int, b: int, reps: seq<Fit>)
    requires ListInv(q, Triple(a, b, 11), reps)
    ensures ListInv(q, Triple(a, b + 1, -10), reps)
  {
    forall t | Listed(q, t) && LexLess(t, Triple(a, b + 1, -10))
      ensures LexLess(t, Triple(a, b, 11))
    {
    }
  }

  lemma ListInvNextA(q: int, a: int, reps: seq<Fit>)
    requires ListInv(q, Triple(a, 11, -10), reps)
    ensures ListInv(q, Triple(a + 1, -10, -10), reps)
  {
    forall t | Listed(q, t) && LexLess(t, Triple(a + 1, -10, -10))
      ensures LexLess(t, Triple(a, 11, -10))
    {
    }
  }

  /** The innermost listing loop, over c, for one (a, b). */
  method ListLine(q: int, a: int, b: int, reps: seq<Fit>) returns (reps': seq<Fit>)
    requires ListBox.aLo <= a < ListBox.aHi && ListBox.bLo <= b < ListBox.bHi
    requires ListInv(q, Triple(a, b, -10), reps)
    ensures ListInv(q, Triple(a, b + 1, -10), reps')
  {
    reps' := reps;
    for c := -10 to 11
      invariant ListInv(q, Triple(a, b, c), reps')
    {
      var d := q - (a * 8 + b * 15 + c * 24);
      if Abs(d) <= 10 {
        reps' := reps' + [Fit(Triple(a, b, c), d)];
      }
    }
    ListInvNextB(q, a, b, reps');
  }

  /** The middle listing loop, over b, for one a. */
  method ListPlane(q: int, a: int, reps: seq<Fit>) returns (reps': seq<Fit>)
    requires ListBox.aLo <= a < ListBox.aHi
    requires ListInv(q, Triple(a, -10, -10), reps)
    ensures ListInv(q, Triple(a + 1, -10, -10), reps')
  {
    reps' := reps;
    for b := -10 to 11
      invariant ListInv(q, Triple(a, b, -10), reps')
    {
      reps' := ListLine(q, a, b, reps');
    }
    ListInvNextA(q, a, reps');
  }

  /** The listing loop of `express_q_as_combination` for one q. */
  method ListRepresentations(q: int) returns (reps: seq<Fit>)
    ensures IsRepresentationList(q, reps)
  {
    reps := [];
    for a := -10 to 11
      invariant ListInv(q, Triple(a, -10, -10), reps)
    {
      reps := ListPlane(q, a, reps);
    }
    forall t | Listed(q, t) ensures Fit(t, q - Eval(t)) in reps {
      assert LexLess(t, Triple(11, -10, -10));
    }
  }

  /** Two strictly sorted lists with the same members are equal. */
  lemma {:induction false} SortedSameMembers(r1: seq<Fit>, r2: seq<Fit>)
    requires StrictlyLexSorted(r1) && StrictlyLexSorted(r2)
    requires forall r :: r in r1 <==> r in r2
    ensures r1 == r2
    decreases |r1|
  {
    if r1 != [] {
      assert r1[0] in r1;
    }
    if r2 != [] {
      assert r2[0] in r2;
    }
    if r1 != [] && r2 != [] {
      var i :| 0 <= i < |r2| && r2[i] == r1[0];
      var j :| 0 <= j < |r1| && r1[j] == r2[0];
      assert i == 0 || LexLess(r2[0].t, r1[0].t);
      assert j == 0 || LexLess(r1[0].t, r2[0].t);
      assert r1[0] == r2[0];
      forall r ensures r in r1[1..] <==> r in r2[1..] {
        if r in r1[1..] {
          var k :| 0 <= k < |r1[1..]| && r1[1..][k] == r;
          assert LexLess(r1[0].t, r1[k + 1].t) && r in r2;
        }
        if r in r2[1..] {
          var k :| 0 <= k < |r2[1..]| && r2[1..][k] == r;
          assert LexLess(r2[0].t, r2[k + 1].t) && r in r1;
        }
      }
      SortedSameMembers(r1[1..], r2[1..]);
    }
  }

  /** The listing is determined: at most one list meets the description. */
  lemma RepresentationListUnique(q: int, r1: seq<Fit>, r2: seq<Fit>)
    requires IsRepresentationList(q, r1) && IsRepresentationList(q, r2)
    ensures r1 == r2
  {
    forall r ensures r in r1 <==> r in r2 {
      if r in r1 { assert Fit(r.t, q - Eval(r.t)) in r2; }
      if r in r2 { assert Fit(r.t, q - Eval(r.t)) in r1; }
    }
    SortedSameMembers(r1, r2);
  }
}
