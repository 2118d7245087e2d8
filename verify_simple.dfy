/**
 * `verify_simple`: a fourteen-row coefficient table (the definitive table
 * without the bottom quark) and the evaluation q = 8a + 15b + 24c of each row.
 */
module VerifySimple {
  import opened Basis
  import opened ParticleData

  /** The `coefficients` dict, in insertion order. */
  const SimpleTable: seq<(string, Triple)> := [
    ("electron", Triple(-30, 0, 10)),
    ("up_quark", Triple(-30, 4, 8)),
    ("down_quark", Triple(-30, 6, 7)),
    ("strange_quark", Triple(-29, 4, 9)),
    ("charm_quark", Triple(-29, 7, 8)),
    ("top_quark", Triple(-28, 6, 10)),
    ("muon", Triple(-29, 4, 9)),
    ("tau", Triple(-29, 4, 10)),
    ("electron_neutrino", Triple(-28, -16, 10)),
    ("muon_neutrino", Triple(-30, -12, 10)),
    ("tau_neutrino", Triple(-30, -6, 7)),
    ("W_boson", Triple(-28, 12, 6)),
    ("Z_boson", Triple(-28, 12, 6)),
    ("higgs_boson", Triple(-28, 9, 8))]

  /** Where each row of this table sits in the definitive coefficient table. */
  const DefinitiveRow: seq<int> := [3, 4, 5, 6, 8, 11, 7, 9, 0, 1, 2, 12, 13, 14]

  /** Every row of this table is, name and triple alike, a row of the definitive table. */
  lemma SimpleRowsAreDefinitiveRows()
    ensures |SimpleTable| == |DefinitiveRow| == 14
    ensures forall i :: 0 <= i < |SimpleTable| ==>
      0 <= DefinitiveRow[i] < |Coeffs| && SimpleTable[i] == Coeffs[DefinitiveRow[i]]
  {
  }

  /** Every printed q agrees with `exact_q` for the same name, and no row is the bottom quark. */
  lemma SimpleTableMatchesExactQ()
    ensures forall i :: 0 <= i < |SimpleTable| ==>
      SimpleTable[i].0 in ExactQ && Eval(SimpleTable[i].1) == ExactQ[SimpleTable[i].0]
    ensures forall i :: 0 <= i < |SimpleTable| ==> SimpleTable[i].0 != "bottom_quark"
  {
    SimpleRowsAreDefinitiveRows();
    CoeffsReproduceExactQ();
    CoeffsNamesDistinct();
    assert Coeffs[10].0 == "bottom_quark";
    forall i | 0 <= i < |SimpleTable| ensures SimpleTable[i].0 != "bottom_quark" {
      assert DefinitiveRow[i] != 10;
    }
  }

  /** The electron row gives q = 0, the top-quark row q = 106, and W and Z share a triple giving 100. */
  lemma SimpleTableLandmarks()
    ensures SimpleTable[0].0 == "electron" && Eval(SimpleTable[0].1) == 0
    ensures SimpleTable[5].0 == "top_quark" && Eval(SimpleTable[5].1) == 106
    ensures SimpleTable[11].0 == "W_boson" && SimpleTable[12].0 == "Z_boson"
    ensures SimpleTable[11].1 == SimpleTable[12].1 && Eval(SimpleTable[11].1) == 100
  {
  }
}
