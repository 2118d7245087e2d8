/**
 * `a5_casimir_ratio`: the normalised Casimir value of a representation, the
 * catalogues of (dim, C, w) states, and the hand-made assignment of particles
 * to representations, built in five passes over the particle list.
 */
module A5CasimirRatio {
  import opened Wrappers
  import opened Strings
  import opened ParticleData
  import opened NameTags
  import opened A5Reps

  /** `casimir_normalized`: explicit values for 1, 3, 4, 5 and `dim**2 - 1` otherwise. */
  function CasimirNormalized(dim: int): (c: int)
    ensures c == dim * dim - 1
  {
    if dim == 1 then 0
    else if dim == 3 then 8
    else if dim == 4 then 15
    else if dim == 5 then 24
    else dim * dim - 1
  }

  /** `possibilities`: (dim, C, w) for every state. */
  const Possibilities: seq<(int, int, int)> := [
    (1, 0, 0),
    (3, 8, -1), (3, 8, 0), (3, 8, 1),
    (4, 15, -3), (4, 15, -1), (4, 15, 1), (4, 15, 3),
    (5, 24, -2), (5, 24, -1), (5, 24, 0), (5, 24, 1), (5, 24, 2)]

  /** `all_states` of `main`: (rep, dim, C, w). */
  const AllStates: seq<(string, int, int, int)> := [
    ("1D", 1, 0, 0),
    ("3D", 3, 8, -1), ("3D", 3, 8, 0), ("3D", 3, 8, 1),
    ("4D", 4, 15, -3), ("4D", 4, 15, -1), ("4D", 4, 15, 1), ("4D", 4, 15, 3),
    ("5D", 5, 24, -2), ("5D", 5, 24, -1), ("5D", 5, 24, 0), ("5D", 5, 24, 1), ("5D", 5, 24, 2)]

  /**
   * `possibilities` lists the thirteen states in catalogue order, each with
   * C = casimir_normalized(dim) and a weight of its representation.
   */
  lemma PossibilitiesAreStates()
    ensures |Possibilities| == |States| == 13
    ensures forall i :: 0 <= i < |Possibilities| ==>
      (Possibilities[i].0, Possibilities[i].2) == States[i]
      && Possibilities[i].1 == CasimirNormalized(Possibilities[i].0)
      && Possibilities[i].2 in Weights(Possibilities[i].0)
  {
  }

  /** `all_states` repeats `possibilities` entry for entry, labelled by dimension. */
  lemma AllStatesArePossibilities()
    ensures |AllStates| == |Possibilities|
    ensures forall i :: 0 <= i < |AllStates| ==>
      (AllStates[i].1, AllStates[i].2, AllStates[i].3) == Possibilities[i]
    ensures forall i :: 0 <= i < |AllStates| ==>
      AllStates[i].0 == (if AllStates[i].1 == 1 then "1D" else if AllStates[i].1 == 3 then "3D"
                         else if AllStates[i].1 == 4 then "4D" else "5D")
  {
  }

  const QuarkWeights: map<string, int> := map[
    "up_quark" := -1, "down_quark" := 0, "strange_quark" := 1,
    "charm_quark" := -1, "bottom_quark" := 0, "top_quark" := 1]

  const LeptonWeights: map<string, int> := map["muon" := -3, "tau" := -1]

  const BosonWeights: map<string, int> := map["W_boson" := -2, "Z_boson" := -1, "higgs_boson" := 0]

  /** One assignment record: name, q, C, w, dim. */
  datatype Assignment = Assignment(name: string, q: int, c: int, w: int, dim: int)

  /**
   * What pass `pass` (0 to 4) assigns to a particle of this name, as (C, w, dim):
   * neutrinos, the electron, the listed quarks, muon and tau, the listed bosons.
   */
  function PassRule(pass: int, name: string): Option<(int, int, int)>
  {
    if pass == 0 then (if Contains(name, "neutrino") then Some((0, 0, 1)) else None)
    else if pass == 1 then (if name == "electron" then Some((8, -1, 3)) else None)
    else if pass == 2 then
      (if Contains(name, "quark") && name in QuarkWeights then Some((8, QuarkWeights[name], 3)) else None)
    else if pass == 3 then (if name in LeptonWeights then Some((15, LeptonWeights[name], 4)) else None)
    else if pass == 4 then (if name in BosonWeights then Some((24, BosonWeights[name], 5)) else None)
    else None
  }

  /** The records appended by one pass over `particles`, in particle order. */
  function PassOutput(particles: seq<Record>, pass: int): seq<Assignment>
  {
    if particles == [] then []
    else
      var last := particles[|particles| - 1];
      PassOutput(particles[..|particles| - 1], pass)
      + match PassRule(pass, last.name)
        case None => []
        case Some(r) => [Assignment(last.name, last.q, r.0, r.1, r.2)]
  }

  /** All five passes, in order. */
  function AssignmentsOf(particles: seq<Record>): seq<Assignment>
  {
    PassOutput(particles, 0) + PassOutput(particles, 1) + PassOutput(particles, 2)
    + PassOutput(particles, 3) + PassOutput(particles, 4)
  }

  /** One `for p in particles` pass, appending to the list built so far. */
  method AssignPass(particles: seq<Record>, pass: int, acc: seq<Assignment>) returns (out: seq<Assignment>)
    ensures out == acc + PassOutput(particles, pass)
  {
    out := acc;
    for i := 0 to |particles|
      invariant out == acc + PassOutput(particles[..i], pass)
    {
      assert particles[..i + 1][..i] == particles[..i];
      var p := particles[i];
      match PassRule(pass, p.name)
      case None =>
      case Some(r) =>
        out := out + [Assignment(p.name, p.q, r.0, r.1, r.2)];
    }
    assert particles[..|particles|] == particles;
  }

  /** The assignment part of `find_best_assignments`. */
  method FindBestAssignments(particles: seq<Record>) returns (assignments: seq<Assignment>)
    ensures assignments == AssignmentsOf(particles)
  {
    assignments := AssignPass(particles, 0, []);
    assignments := AssignPass(particles, 1, assignments);
    assignments := AssignPass(particles, 2, assignments);
    assignments := AssignPass(particles, 3, assignments);
    assignments := AssignPass(particles, 4, assignments);
  }

  /**
   * Every rule gives C = casimir_normalized(dim) and a weight of that
   * representation: quarks in {-1, 0, 1}, muon and tau in {-3, -1}, bosons in
   * {-2, -1, 0}.
   */
  lemma PassRuleSound(pass: int, name: string)
    ensures PassRule(pass, name).Some? ==>
      var r := PassRule(pass, name).value;
      r.0 == CasimirNormalized(r.2) && r.1 in Weights(r.2)
    ensures pass == 2 && PassRule(pass, name).Some? ==> PassRule(pass, name).value.1 in {-1, 0, 1}
    ensures pass == 3 && PassRule(pass, name).Some? ==> PassRule(pass, name).value.1 in {-3, -1}
    ensures pass == 4 && PassRule(pass, name).Some? ==> PassRule(pass, name).value.1 in {-2, -1, 0}
  {
  }

  /**
   * A pass outputs exactly one record for each particle its rule accepts, with
   * that particle's name and q and the rule's C, w and dim.
   */
  lemma {:induction false} PassOutputExact(particles: seq<Record>, pass: int)
    ensures forall a :: a in PassOutput(particles, pass) ==>
      PassRule(pass, a.name) == Some((a.c, a.w, a.dim))
      && exists i :: 0 <= i < |particles| && particles[i].name == a.name && particles[i].q == a.q
    ensures forall i :: 0 <= i < |particles| && PassRule(pass, particles[i].name).Some? ==>
      var r := PassRule(pass, particles[i].name).value;
      Assignment(particles[i].name, particles[i].q, r.0, r.1, r.2) in PassOutput(particles, pass)
  {
    if particles != [] {
      var init := particles[..|particles| - 1];
      PassOutputExact(init, pass);
      forall a | a in PassOutput(particles, pass)
        ensures exists i :: 0 <= i < |particles| && particles[i].name == a.name && particles[i].q == a.q
      {
        if a in PassOutput(init, pass) {
          var i :| 0 <= i < |init| && init[i].name == a.name && init[i].q == a.q;
          assert particles[i] == init[i];
        } else {
          assert particles[|particles| - 1].name == a.name;
        }
      }
      forall i | 0 <= i < |particles| && PassRule(pass, particles[i].name).Some?
        ensures var r := PassRule(pass, particles[i].name).value;
          Assignment(particles[i].name, particles[i].q, r.0, r.1, r.2) in PassOutput(particles, pass)
      {
        if i < |init| {
          assert particles[i] == init[i];
        }
      }
    }
  }

  /** Every assignment record has C = casimir_normalized(dim) and a weight of its representation. */
  lemma AssignmentsSound(particles: seq<Record>)
    ensures forall a :: a in AssignmentsOf(particles) ==> a.c == CasimirNormalized(a.dim) && IsState(a.dim, a.w)
  {
    forall a | a in AssignmentsOf(particles) ensures a.c == CasimirNormalized(a.dim) && IsState(a.dim, a.w) {
      var pass :| 0 <= pass < 5 && a in PassOutput(particles, pass);
      PassOutputExact(particles, pass);
      PassRuleSound(pass, a.name);
      WeightsExact(a.dim, a.w);
    }
  }

  /** No name accepted by passes 1 to 4 contains "neutrino". */
  lemma Pass1NotNeutrino(name: string)
    requires PassRule(1, name).Some?
    ensures !Contains(name, "neutrino")
  {
    if name == "electron" { ElectronLacksNeutrino(); }
  }

  lemma Pass2NotNeutrino(name: string)
    requires PassRule(2, name).Some?
    ensures !Contains(name, "neutrino")
  {
    if name == "up_quark" { UpQuarkLacksNeutrino(); }
    else if name == "down_quark" { DownQuarkLacksNeutrino(); }
    else if name == "strange_quark" { StrangeQuarkLacksNeutrino(); }
    else if name == "charm_quark" { CharmQuarkLacksNeutrino(); }
    else if name == "bottom_quark" { BottomQuarkLacksNeutrino(); }
    else if name == "top_quark" { TopQuarkLacksNeutrino(); }
  }

  lemma Pass3NotNeutrino(name: string)
    requires PassRule(3, name).Some?
    ensures !Contains(name, "neutrino")
  {
    if name == "muon" { MuonLacksNeutrino(); }
    else if name == "tau" { TauLacksNeutrino(); }
  }

  lemma Pass4NotNeutrino(name: string)
    requires PassRule(4, name).Some?
    ensures !Contains(name, "neutrino")
  {
    if name == "W_boson" { WBosonLacksNeutrino(); }
    else if name == "Z_boson" { ZBosonLacksNeutrino(); }
    else if name == "higgs_boson" { HiggsBosonLacksNeutrino(); }
  }

  /** The passes accept disjoint sets of names, so no particle is assigned twice. */
  lemma PassesDisjoint(name: string, p1: int, p2: int)
    requires 0 <= p1 < p2 < 5
    ensures !(PassRule(p1, name).Some? && PassRule(p2, name).Some?)
  {
    if PassRule(p2, name).Some? && p1 == 0 {
      if p2 == 1 { Pass1NotNeutrino(name); }
      else if p2 == 2 { Pass2NotNeutrino(name); }
      else if p2 == 3 { Pass3NotNeutrino(name); }
      else { Pass4NotNeutrino(name); }
    }
  }

  /** A name shows up in the output of one pass at most. */
  lemma AssignedInOnePass(particles: seq<Record>, a1: Assignment, a2: Assignment, p1: int, p2: int)
    requires 0 <= p1 < 5 && 0 <= p2 < 5
    requires a1 in PassOutput(particles, p1) && a2 in PassOutput(particles, p2) && a1.name == a2.name
    ensures p1 == p2
  {
    PassOutputExact(particles, p1);
    PassOutputExact(particles, p2);
    if p1 < p2 {
      PassesDisjoint(a1.name, p1, p2);
    } else if p2 < p1 {
      PassesDisjoint(a1.name, p2, p1);
    }
  }
}
