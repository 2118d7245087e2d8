/**
 * The particle tables every analysis script starts from: the exact integer q
 * values, the integer (a, b, c) coefficients, and the loading of database rows
 * into records carrying q and the exponent n = q/4.
 */
module ParticleData {
  import opened Wrappers
  import opened Basis

  /** The `exact_q` dict: q = 4n for the fifteen Standard Model particles. */
  const ExactQ: map<string, int> := map[
    "electron_neutrino" := -224, "muon_neutrino" := -180, "tau_neutrino" := -162,
    "electron" := 0, "up_quark" := 12, "down_quark" := 18, "strange_quark" := 44,
    "muon" := 44, "charm_quark" := 65, "tau" := 68, "bottom_quark" := 75,
    "top_quark" := 106, "W_boson" := 100, "Z_boson" := 100, "higgs_boson" := 103]

  /** The `coeffs` dict, in its insertion order. */
  const Coeffs: seq<(string, Triple)> := [
    ("electron_neutrino", Triple(-28, -16, 10)),
    ("muon_neutrino", Triple(-30, -12, 10)),
    ("tau_neutrino", Triple(-30, -6, 7)),
    ("electron", Triple(-30, 0, 10)),
    ("up_quark", Triple(-30, 4, 8)),
    ("down_quark", Triple(-30, 6, 7)),
    ("strange_quark", Triple(-29, 4, 9)),
    ("muon", Triple(-29, 4, 9)),
    ("charm_quark", Triple(-29, 7, 8)),
    ("tau", Triple(-29, 4, 10)),
    ("bottom_quark", Triple(-30, 5, 10)),
    ("top_quark", Triple(-28, 6, 10)),
    ("W_boson", Triple(-28, 12, 6)),
    ("Z_boson", Triple(-28, 12, 6)),
    ("higgs_boson", Triple(-28, 9, 8))]

  /** The columns a script reads from the `particles` table (mass is not modelled). */
  datatype DbRow = DbRow(name: string, category: string)

  /** A loaded particle: its name, category and exact q. */
  datatype Record = Record(name: string, category: string, q: int)

  /** The grouping keys and values of a record. */
  function CategoryOf(p: Record): string { p.category }
  function Itself(p: Record): Record { p }

  /** The exponent n = q / 4 stored beside q (Python true division). */
  function Exponent(r: Record): (n: real)
    ensures 4.0 * n == r.q as real
  {
    r.q as real / 4.0
  }

  /**
   * `load_data`: one record per row, in row order, with q looked up in
   * `exact_q`; the first row whose name is not a key raises `KeyError`.
   */
  method LoadData(rows: seq<DbRow>) returns (r: Result<seq<Record>, string>)
    ensures r.Success? <==> forall i :: 0 <= i < |rows| ==> rows[i].name in ExactQ
    ensures r.Success? ==> |r.value| == |rows|
    ensures r.Success? ==> forall i :: 0 <= i < |rows| ==>
      r.value[i] == Record(rows[i].name, rows[i].category, ExactQ[rows[i].name])
    ensures r.Failure? ==> r.error !in ExactQ
    ensures r.Failure? ==> exists i :: 0 <= i < |rows| && rows[i].name == r.error && forall j :: 0 <= j < i ==> rows[j].name in ExactQ
  {
    var particles: seq<Record> := [];
    for i := 0 to |rows|
      invariant |particles| == i
      invariant forall j :: 0 <= j < i ==> rows[j].name in ExactQ
      invariant forall j :: 0 <= j < i ==>
        particles[j] == Record(rows[j].name, rows[j].category, ExactQ[rows[j].name])
    {
      var name := rows[i].name;
      if name !in ExactQ {
        return Failure(name);
      }
      particles := particles + [Record(name, rows[i].category, ExactQ[name])];
    }
    return Success(particles);
  }

  /** Every coefficient row reproduces the exact q of its particle. */
  lemma CoeffsReproduceExactQ()
    ensures forall i :: 0 <= i < |Coeffs| ==> Coeffs[i].0 in ExactQ && Eval(Coeffs[i].1) == ExactQ[Coeffs[i].0]
  {
  }

  /** The table names are distinct. */
  lemma CoeffsNamesDistinct()
    ensures forall i, j :: 0 <= i < j < |Coeffs| ==> Coeffs[i].0 != Coeffs[j].0
  {
  }
}
