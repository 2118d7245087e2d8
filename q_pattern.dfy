/**
 * `q_pattern_analysis`: the decomposer run over the `q_values` table, and the
 * dimension / Casimir / spin labels of `find_simple_model`.
 */
module QPatternAnalysis {
  import opened Basis
  import opened Strings
  import opened ParticleData
  import opened Decompose

  /** The `q_values` dict, in insertion order. */
  const QValues: seq<(string, int)> := [
    ("electron_neutrino", -224), ("muon_neutrino", -180), ("tau_neutrino", -162),
    ("electron", 0), ("up_quark", 12), ("down_quark", 18), ("strange_quark", 44),
    ("muon", 44), ("charm_quark", 65), ("tau", 68), ("bottom_quark", 75),
    ("top_quark", 106), ("W_boson", 100), ("Z_boson", 100), ("higgs_boson", 103)]

  /** `q_values` lists the same particles as the coefficient table, with their `exact_q`. */
  lemma QValuesMatchExactQ()
    ensures |QValues| == |Coeffs|
    ensures forall i :: 0 <= i < |QValues| ==>
      QValues[i].0 == Coeffs[i].0 && QValues[i].0 in ExactQ && ExactQ[QValues[i].0] == QValues[i].1
  {
  }

  /** Both loops of `express_q_as_combination`, one entry per particle. */
  method ExpressAll(table: seq<(string, int)>) returns (fits: seq<Fit>, errors: seq<nat>, allCoeffs: seq<seq<Fit>>)
    ensures |fits| == |errors| == |allCoeffs| == |table|
    ensures forall i :: 0 <= i < |table| ==>
      IsBestFit(table[i].1, fits[i]) && IsRepresentationList(table[i].1, allCoeffs[i])
    ensures forall i :: 0 <= i < |table| ==> errors[i] == if InFitRange(table[i].1) then 0 else Abs(table[i].1)
  {
    fits, errors := [], [];
    for i := 0 to |table|
      invariant |fits| == |errors| == i
      invariant forall j :: 0 <= j < i ==> IsBestFit(table[j].1, fits[j])
      invariant forall j :: 0 <= j < i ==> errors[j] == if InFitRange(table[j].1) then 0 else Abs(table[j].1)
    {
      var fit, error := BestFitWithOffset(table[i].1);
      fits, errors := fits + [fit], errors + [error];
    }
    allCoeffs := [];
    for i := 0 to |table|
      invariant |allCoeffs| == i
      invariant forall j :: 0 <= j < i ==> IsRepresentationList(table[j].1, allCoeffs[j])
    {
      var reps := ListRepresentations(table[i].1);
      ghost var prev := allCoeffs;
      allCoeffs := allCoeffs + [reps];
      forall j | 0 <= j <= i ensures IsRepresentationList(table[j].1, allCoeffs[j]) {
        if j < i {
          assert allCoeffs[j] == prev[j];
        }
      }
    }
  }

  /** Every particle of `q_values` is decomposed with offset 0 and error 0. */
  lemma QValuesFitExactly(fits: seq<Fit>)
    requires |fits| == |QValues|
    requires forall i :: 0 <= i < |QValues| ==> IsBestFit(QValues[i].1, fits[i])
    ensures forall i :: 0 <= i < |QValues| ==> fits[i].d == 0 && Eval(fits[i].t) == QValues[i].1
  {
    forall i | 0 <= i < |QValues| ensures fits[i].d == 0 && Eval(fits[i].t) == QValues[i].1 {
      BestFitExact(QValues[i].1, fits[i]);
    }
  }

  /** One row of `assignments` in `find_simple_model`. */
  datatype SimpleAssignment = SimpleAssignment(name: string, q: int, dim: nat, casimir: int, spin: real, category: string)

  /** The dimension chosen from the name. */
  function SimpleDim(name: string): (dim: nat)
    ensures dim in {3, 4, 5}
    ensures Contains(name, "neutrino") ==> dim == 4
    ensures !Contains(name, "neutrino") && (name == "electron" || Contains(name, "quark")) ==> dim == 3
  {
    if Contains(name, "neutrino") then 4
    else if name == "electron" then 3
    else if Contains(name, "quark") then 3
    else if name in ["muon", "tau"] then 4
    else 5
  }

  /** Spin: 1 for W and Z, 0 for other particles whose category names a boson, 1/2 otherwise. */
  function SimpleSpin(name: string, category: string): (spin: real)
    ensures spin in {0.0, 0.5, 1.0}
    ensures spin == 1.0 <==> Contains(category, "boson") && name in ["W_boson", "Z_boson"]
    ensures spin == 0.5 <==> !Contains(category, "boson")
  {
    if Contains(category, "boson") then
      if name in ["W_boson", "Z_boson"] then 1.0 else 0.0
    else 0.5
  }

  /** The assignment loop of `find_simple_model`. */
  method FindSimpleModel(particles: seq<Record>) returns (assignments: seq<SimpleAssignment>)
    ensures |assignments| == |particles|
    ensures forall i :: 0 <= i < |particles| ==>
      var r := assignments[i];
      r.name == particles[i].name && r.q == particles[i].q && r.category == particles[i].category
      && r.dim == SimpleDim(r.name) && r.casimir == r.dim * r.dim - 1 && r.casimir in {8, 15, 24}
      && r.spin == SimpleSpin(r.name, r.category)
  {
    assignments := [];
    for i := 0 to |particles|
      invariant |assignments| == i
      invariant forall j :: 0 <= j < i ==>
        var r := assignments[j];
        r.name == particles[j].name && r.q == particles[j].q && r.category == particles[j].category
        && r.dim == SimpleDim(r.name) && r.casimir == r.dim * r.dim - 1 && r.casimir in {8, 15, 24}
        && r.spin == SimpleSpin(r.name, r.category)
    {
      var p := particles[i];
      var dim := SimpleDim(p.name);
      var spin := SimpleSpin(p.name, p.category);
      assignments := assignments + [SimpleAssignment(p.name, p.q, dim, dim * dim - 1, spin, p.category)];
    }
  }
}
