/**
 * `definitive_a5_model_fixed`: the coefficient table checked against the exact
 * q values (twice), the grouping of names by c and by b, the coefficient sums
 * and ranges, and the enumeration of triples not in the table.
 */
module Definitive {
  import opened Wrappers
  import opened Basis
  import opened Sorting
  import opened Grouping
  import opened ParticleData
  import opened Enumeration

  /** A dict of triples keyed by name has distinct names. */
  predicate DistinctNames(table: seq<(string, Triple)>)
  {
    forall i, j :: 0 <= i < j < |table| ==> table[i].0 != table[j].0
  }

  /**
   * One verification pass: for each row, `8a + 15b + 24c` against the `exact_q`
   * value looked up by name (a missing name raises `KeyError`).
   */
  method CheckCoefficients(table: seq<(string, Triple)>) returns (r: Result<seq<bool>, string>)
    ensures r.Success? <==> forall i :: 0 <= i < |table| ==> table[i].0 in ExactQ
    ensures r.Success? ==> |r.value| == |table|
    ensures r.Success? ==> forall i :: 0 <= i < |table| ==>
      (r.value[i] <==> Eval(table[i].1) == ExactQ[table[i].0])
    ensures r.Failure? ==> r.error !in ExactQ
    ensures r.Failure? ==>
      exists i :: 0 <= i < |table| && table[i].0 == r.error && forall j :: 0 <= j < i ==> table[j].0 in ExactQ
  {
    var marks: seq<bool> := [];
    for i := 0 to |table|
      invariant |marks| == i
      invariant forall j :: 0 <= j < i ==> table[j].0 in ExactQ
      invariant forall j :: 0 <= j < i ==> (marks[j] <==> Eval(table[j].1) == ExactQ[table[j].0])
    {
      var (name, t) := table[i];
      var qCalc := t.a * 8 + t.b * 15 + t.c * 24;
      if name !in ExactQ {
        return Failure(name);
      }
      marks := marks + [qCalc == ExactQ[name]];
    }
    return Success(marks);
  }

  /** `find_integer_coefficients`: the table, with every check mark set. */
  method FindIntegerCoefficients() returns (coeffs: seq<(string, Triple)>, marks: seq<bool>)
    ensures coeffs == Coeffs && DistinctNames(coeffs)
    ensures |marks| == |coeffs| && forall i :: 0 <= i < |marks| ==> marks[i]
  {
    coeffs := Coeffs;
    CoeffsNamesDistinct();
    CoeffsReproduceExactQ();
    var r := CheckCoefficients(coeffs);
    marks := r.value;
  }

  function CKey(row: (string, Triple)): int { row.1.c }
  function BKey(row: (string, Triple)): int { row.1.b }
  function NameOf(row: (string, Triple)): string { row.0 }

  /**
   * A `c_values`/`b_values` dict: names grouped by one coefficient. Each name
   * lands in exactly the group keyed by its own coefficient.
   */
  method GroupNames(coeffs: seq<(string, Triple)>, key: ((string, Triple)) -> int) returns (groups: map<int, seq<string>>)
    requires DistinctNames(coeffs)
    ensures forall k :: k in groups <==> exists i :: 0 <= i < |coeffs| && key(coeffs[i]) == k
    ensures forall i, k :: 0 <= i < |coeffs| && k in groups ==> (coeffs[i].0 in groups[k] <==> key(coeffs[i]) == k)
    ensures forall k :: k in groups ==> groups[k] == Collect(coeffs, key, NameOf, k)
  {
    var order;
    groups, order := GroupBy(coeffs, key, NameOf);
    forall i, k | 0 <= i < |coeffs| && k in groups
      ensures coeffs[i].0 in groups[k] <==> key(coeffs[i]) == k
    {
      CollectPartition(coeffs, key, NameOf, i, k);
    }
  }

  /** The `sums` list: each name with a + b + c. */
  method CoefficientSums(coeffs: seq<(string, Triple)>) returns (sums: seq<(string, int)>)
    ensures |sums| == |coeffs|
    ensures forall i :: 0 <= i < |coeffs| ==> sums[i] == (coeffs[i].0, coeffs[i].1.a + coeffs[i].1.b + coeffs[i].1.c)
  {
    sums := [];
    for i := 0 to |coeffs|
      invariant |sums| == i
      invariant forall j :: 0 <= j < i ==> sums[j] == (coeffs[j].0, coeffs[j].1.a + coeffs[j].1.b + coeffs[j].1.c)
    {
      var (name, t) := coeffs[i];
      sums := sums + [(name, t.a + t.b + t.c)];
    }
  }

  /** The outputs of `find_simple_rules`. */
  datatype SimpleRules = SimpleRules(
    cValues: map<int, seq<string>>, bValues: map<int, seq<string>>,
    sums: seq<(string, int)>, status: Result<seq<bool>, string>)

  /**
   * `find_simple_rules`: names grouped by c and by b, the sums a + b + c, and
   * the second verification pass.
   */
  method FindSimpleRules(coeffs: seq<(string, Triple)>) returns (rules: SimpleRules)
    requires DistinctNames(coeffs)
    ensures forall k :: k in rules.cValues <==> exists i :: 0 <= i < |coeffs| && coeffs[i].1.c == k
    ensures forall k :: k in rules.bValues <==> exists i :: 0 <= i < |coeffs| && coeffs[i].1.b == k
    ensures forall i, k :: 0 <= i < |coeffs| && k in rules.cValues ==>
      (coeffs[i].0 in rules.cValues[k] <==> coeffs[i].1.c == k)
    ensures forall i, k :: 0 <= i < |coeffs| && k in rules.bValues ==>
      (coeffs[i].0 in rules.bValues[k] <==> coeffs[i].1.b == k)
    ensures |rules.sums| == |coeffs|
    ensures forall i :: 0 <= i < |coeffs| ==>
      rules.sums[i] == (coeffs[i].0, coeffs[i].1.a + coeffs[i].1.b + coeffs[i].1.c)
    ensures rules.status.Success? <==> forall i :: 0 <= i < |coeffs| ==> coeffs[i].0 in ExactQ
    ensures rules.status.Success? ==> |rules.status.value| == |coeffs| && forall i :: 0 <= i < |coeffs| ==>
      (rules.status.value[i] <==> Eval(coeffs[i].1) == ExactQ[coeffs[i].0])
    ensures coeffs == Coeffs ==> rules.status.Success? && forall i :: 0 <= i < |coeffs| ==> rules.status.value[i]
  {
    var cValues := GroupNames(coeffs, CKey);
    var bValues := GroupNames(coeffs, BKey);
    var sums := CoefficientSums(coeffs);
    CoeffsReproduceExactQ();
    var status := CheckCoefficients(coeffs);
    rules := SimpleRules(cValues, bValues, sums, status);
  }

  /** `[a for a, b, c in coeffs.values()]` for a chosen column. */
  function Column(coeffs: seq<(string, Triple)>, f: Triple -> int): (col: seq<int>)
    ensures |col| == |coeffs|
    ensures forall i :: 0 <= i < |coeffs| ==> col[i] == f(coeffs[i].1)
  {
    seq(|coeffs|, i requires 0 <= i < |coeffs| => f(coeffs[i].1))
  }

  function ColA(t: Triple): int { t.a }
  function ColB(t: Triple): int { t.b }
  function ColC(t: Triple): int { t.c }

  datatype Range = Range(lo: int, hi: int)

  /** `min` and `max` of a column; `min` of an empty list raises `ValueError`. */
  function ColumnRange(coeffs: seq<(string, Triple)>, f: Triple -> int): (r: Option<Range>)
    ensures r.None? <==> coeffs == []
    ensures r.Some? ==> forall i :: 0 <= i < |coeffs| ==> r.value.lo <= f(coeffs[i].1) <= r.value.hi
    ensures r.Some? ==> exists i :: 0 <= i < |coeffs| && f(coeffs[i].1) == r.value.lo
    ensures r.Some? ==> exists i :: 0 <= i < |coeffs| && f(coeffs[i].1) == r.value.hi
  {
    if coeffs == [] then None
    else
      var col := Column(coeffs, f);
      var lo, hi := MinOf(col), MaxOf(col);
      assert col[0] in col;
      assert forall i :: 0 <= i < |coeffs| ==> col[i] in col;
      Some(Range(lo, hi))
  }

  /** The ranges printed for the table: a from -30 to -28, b from -16 to 12, c from 6 to 10. */
  lemma TableRangeA()
    ensures ColumnRange(Coeffs, ColA) == Some(Range(-30, -28))
  {
    assert forall i :: 0 <= i < |Coeffs| ==> -30 <= Coeffs[i].1.a <= -28;
    assert Coeffs[1].1.a == -30 && Coeffs[0].1.a == -28;
  }

  lemma TableRangeB()
    ensures ColumnRange(Coeffs, ColB) == Some(Range(-16, 12))
  {
    assert forall i :: 0 <= i < |Coeffs| ==> -16 <= Coeffs[i].1.b <= 12;
    assert Coeffs[0].1.b == -16 && Coeffs[12].1.b == 12;
  }

  lemma TableRangeC()
    ensures ColumnRange(Coeffs, ColC) == Some(Range(6, 10))
  {
    assert forall i :: 0 <= i < |Coeffs| ==> 6 <= Coeffs[i].1.c <= 10;
    assert Coeffs[12].1.c == 6 && Coeffs[0].1.c == 10;
  }

  /** The triples of the table, in table order. */
  function TriplesOf(coeffs: seq<(string, Triple)>): (ts: seq<Triple>)
    ensures |ts| == |coeffs|
    ensures forall t :: t in ts <==> exists i :: 0 <= i < |coeffs| && coeffs[i].1 == t
  {
    var ts := seq(|coeffs|, i requires 0 <= i < |coeffs| => coeffs[i].1);
    assert forall i :: 0 <= i < |coeffs| ==> ts[i] == coeffs[i].1 && ts[i] in ts;
    forall t | t in ts ensures exists i :: 0 <= i < |coeffs| && coeffs[i].1 == t {
      var i :| 0 <= i < |ts| && ts[i] == t;
    }
    ts
  }

  /** `range(-35, -25)`, `range(-20, 20)`, `range(5, 15)`. */
  const PredictionBox := Box(-35, -25, -20, 20, 5, 15)

  /**
   * The filter of `predict_new_particles`: not a table triple, -300 < q < 300,
   * and the mass for q inside the window (given as `inWindow`).
   */
  predicate NewTriple(coeffs: seq<(string, Triple)>, inWindow: int -> bool, t: Triple)
  {
    t !in TriplesOf(coeffs) && -300 < Eval(t) < 300 && inWindow(Eval(t))
  }

  function NewFilter(coeffs: seq<(string, Triple)>, inWindow: int -> bool): Triple -> bool
  {
    t => NewTriple(coeffs, inWindow, t)
  }

  /** The outputs of `predict_new_particles`. */
  datatype PredictionRun = PredictionRun(
    aRange: Range, bRange: Range, cRange: Range,
    predictions: seq<Prediction>, shown: seq<Prediction>)

  /**
   * `predict_new_particles`: ranges, then the filtered triples of the box,
   * sorted by mass (increasing in q, so sorted by q) and cut to ten.
   */
  method PredictNewParticles(coeffs: seq<(string, Triple)>, inWindow: int -> bool) returns (r: Result<PredictionRun, string>)
    ensures r.Failure? <==> coeffs == []
    ensures r.Success? ==>
      Some(r.value.aRange) == ColumnRange(coeffs, ColA) && Some(r.value.bRange) == ColumnRange(coeffs, ColB)
      && Some(r.value.cRange) == ColumnRange(coeffs, ColC)
    ensures r.Success? ==> IsSortedPredictionList(PredictionBox, NewFilter(coeffs, inWindow), r.value.predictions)
    ensures r.Success? ==> r.value.shown == Head(r.value.predictions, 10)
  {
    var ra, rb, rc := ColumnRange(coeffs, ColA), ColumnRange(coeffs, ColB), ColumnRange(coeffs, ColC);
    if coeffs == [] {
      return Failure("ValueError");
    }
    var found := Enumerate(PredictionBox, NewFilter(coeffs, inWindow));
    SortEnumeration(PredictionBox, NewFilter(coeffs, inWindow), found);
    var predictions := SortBy(found, ByQ);
    r := Success(PredictionRun(ra.value, rb.value, rc.value, predictions, Head(predictions, 10)));
  }

  /**
   * Every listed prediction lies in the box, is not a table triple and has
   * -300 < q = 8a + 15b + 24c < 300; every such triple in the mass window is listed.
   */
  lemma PredictionsFiltered(coeffs: seq<(string, Triple)>, inWindow: int -> bool, r: seq<Prediction>)
    requires IsSortedPredictionList(PredictionBox, NewFilter(coeffs, inWindow), r)
    ensures forall p :: p in r ==>
      -35 <= p.t.a <= -26 && -20 <= p.t.b <= 19 && 5 <= p.t.c <= 14
      && p.t !in TriplesOf(coeffs) && p.q == Eval(p.t) && -300 < p.q < 300 && inWindow(p.q)
    ensures forall t :: InBox(t, PredictionBox) && t !in TriplesOf(coeffs) && -300 < Eval(t) < 300 && inWindow(Eval(t)) ==>
      Prediction(t, Eval(t)) in r
  {
    forall p | p in r ensures p.t !in TriplesOf(coeffs) && -300 < p.q < 300 && inWindow(p.q) {
      assert Kept(PredictionBox, NewFilter(coeffs, inWindow), p.t);
    }
    forall t | InBox(t, PredictionBox) && t !in TriplesOf(coeffs) && -300 < Eval(t) < 300 && inWindow(Eval(t))
      ensures Prediction(t, Eval(t)) in r
    {
      assert Kept(PredictionBox, NewFilter(coeffs, inWindow), t);
    }
  }
}
