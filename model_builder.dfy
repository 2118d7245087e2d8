/**
 * `model_builder_clean`: the representation assigned to each particle from
 * its name, category and q; the per-particle search over all (dim, w) states
 * for the smallest error of a given linear model n = alpha dim + beta w +
 * gamma; and the enumeration of all thirteen states.
 */
module ModelBuilder {
  import opened Strings
  import opened ParticleData
  import opened A5Reps
  import opened ArgMin

  /** A representation choice: dimension, weight, and the weight list kept with it. */
  datatype Rep = Rep(dim: int, w: int, weights: seq<int>)

  /** One record of `assign_a5_representations`. */
  datatype RepAssignment = RepAssignment(name: string, rep: Rep, q: int)

  /**
   * The branch chain of `assign_a5_representations` for one particle. The weight
   * always lies in the weight list stored with it, and the if-chains on `q % 4`
   * and `q % 5` are the closed forms 2 (q mod 4) - 3 and (q mod 5) - 2.
   */
  function AssignRep(name: string, category: string, q: int): (r: Rep)
    ensures r.w in r.weights && r.weights == Weights(r.dim) && r.dim in Dims
    ensures name == "electron" || Contains(name, "neutrino") ==> r.dim == 1 && r.w == 0
    ensures name != "electron" && !Contains(name, "neutrino") && category == "quark" ==>
      r.dim == 3 && r.w == q % 3 - 1
    ensures name != "electron" && !Contains(name, "neutrino") && category != "quark" && category == "lepton" ==>
      r.dim == 4 && r.w == 2 * (q % 4) - 3
    ensures name != "electron" && !Contains(name, "neutrino") && category != "quark" && category != "lepton" ==>
      r.dim == 5 && r.w == q % 5 - 2
  {
    if name == "electron" then Rep(1, 0, [0])
    else if Contains(name, "neutrino") then Rep(1, 0, [0])
    else if category == "quark" then Rep(3, q % 3 - 1, [-1, 0, 1])
    else if category == "lepton" && name != "electron" then
      var wMod := q % 4;
      Rep(4, if wMod == 0 then -3 else if wMod == 1 then -1 else if wMod == 2 then 1 else 3, [-3, -1, 1, 3])
    else
      var wMod := q % 5;
      Rep(5, if wMod == 0 then -2 else if wMod == 1 then -1 else if wMod == 2 then 0 else if wMod == 3 then 1 else 2,
          [-2, -1, 0, 1, 2])
  }

  /** Adding a multiple of 60 to q keeps q mod 3, q mod 4 and q mod 5. */
  lemma ModThreeShift(q: int, k: int)
    ensures (q + 60 * k) % 3 == q % 3
  {
    var r := q % 3;
    assert q == 3 * (q / 3) + r && q + 60 * k == 3 * (q / 3 + 20 * k) + r;
  }

  lemma ModFourShift(q: int, k: int)
    ensures (q + 60 * k) % 4 == q % 4
  {
    var r := q % 4;
    assert q == 4 * (q / 4) + r && q + 60 * k == 4 * (q / 4 + 15 * k) + r;
  }

  lemma ModFiveShift(q: int, k: int)
    ensures (q + 60 * k) % 5 == q % 5
  {
    var r := q % 5;
    assert q == 5 * (q / 5) + r && q + 60 * k == 5 * (q / 5 + 12 * k) + r;
  }

  /** The assignment depends on q only modulo 60, the least common multiple of 3, 4 and 5. */
  lemma AssignRepPeriodic(name: string, category: string, q: int, k: int)
    ensures AssignRep(name, category, q + 60 * k) == AssignRep(name, category, q)
  {
    ModThreeShift(q, k);
    ModFourShift(q, k);
    ModFiveShift(q, k);
  }

  /** The loop of `assign_a5_representations`: one record per particle, in order. */
  method AssignA5Representations(particles: seq<Record>) returns (assignments: seq<RepAssignment>)
    ensures |assignments| == |particles|
    ensures forall i :: 0 <= i < |particles| ==>
      assignments[i] == RepAssignment(particles[i].name, AssignRep(particles[i].name, particles[i].category, particles[i].q), particles[i].q)
  {
    assignments := [];
    for i := 0 to |particles|
      invariant |assignments| == i
      invariant forall j :: 0 <= j < i ==>
        assignments[j] == RepAssignment(particles[j].name, AssignRep(particles[j].name, particles[j].category, particles[j].q), particles[j].q)
    {
      var p := particles[i];
      assignments := assignments + [RepAssignment(p.name, AssignRep(p.name, p.category, p.q), p.q)];
    }
  }

  /** `possible_reps` of `try_different_assignments`. */
  const PossibleReps: seq<(int, seq<int>)> := [(1, [0]), (3, [-1, 0, 1]), (4, [-3, -1, 1, 3]), (5, [-2, -1, 0, 1, 2])]

  /** The (dim, w) pairs of one entry, in weight order. */
  function Pairs(dim: int, ws: seq<int>): (ps: seq<(int, int)>)
    ensures |ps| == |ws| && forall k :: 0 <= k < |ws| ==> ps[k] == (dim, ws[k])
  {
    seq(|ws|, k requires 0 <= k < |ws| => (dim, ws[k]))
  }

  /** The pairs the two nested loops visit, in visiting order. */
  function Flatten(reps: seq<(int, seq<int>)>): seq<(int, int)>
  {
    if reps == [] then [] else Flatten(reps[..|reps| - 1]) + Pairs(reps[|reps| - 1].0, reps[|reps| - 1].1)
  }

  /** The nested loops visit exactly the thirteen states, in catalogue order. */
  lemma VisitOrderIsCatalogue()
    ensures Flatten(PossibleReps) == States
    ensures forall i :: 0 <= i < |PossibleReps| ==> PossibleReps[i] == (Dims[i], Weights(Dims[i]))
  {
    StatesByDimension();
    var r := PossibleReps;
    assert r[..0] == [];
    assert r[..1][..0] == r[..0] && r[..2][..1] == r[..1] && r[..3][..2] == r[..2] && r[..4][..3] == r[..3];
    assert Flatten(r[..1]) == StatesOf(1);
    assert Flatten(r[..2]) == StatesOf(1) + StatesOf(3);
    assert Flatten(r[..3]) == StatesOf(1) + StatesOf(3) + StatesOf(4);
    assert r[..4] == r;
  }

  function RAbs(x: real): real
  {
    if x < 0.0 then -x else x
  }

  /** `abs(alpha*dim + beta*w + gamma - n)`, in exact arithmetic. */
  function StateError(alpha: real, beta: real, gamma: real, n: real, s: (int, int)): real
  {
    RAbs(alpha * s.0 as real + beta * s.1 as real + gamma - n)
  }

  /** The error of every state for one particle, as a cost function. */
  function Cost(alpha: real, beta: real, gamma: real, n: real): ((int, int)) -> real
  {
    s => StateError(alpha, beta, gamma, n, s)
  }

  /** The inner loop over the weights of one representation. */
  method ScanWeights(alpha: real, beta: real, gamma: real, n: real, dim: int, weights: seq<int>,
                     ghost seen: seq<(int, int)>, found: bool, ghost k: int, bestDim: int, bestW: int, bestError: real)
    returns (ghost seen': seq<(int, int)>, found': bool, ghost k': int, bestDim': int, bestW': int, bestError': real)
    requires BestSoFar(seen, Cost(alpha, beta, gamma, n), found, k, (bestDim, bestW), bestError)
    ensures seen' == seen + Pairs(dim, weights)
    ensures BestSoFar(seen', Cost(alpha, beta, gamma, n), found', k', (bestDim', bestW'), bestError')
  {
    seen', found', k', bestDim', bestW', bestError' := seen, found, k, bestDim, bestW, bestError;
    for j := 0 to |weights|
      invariant seen' == seen + Pairs(dim, weights[..j])
      invariant BestSoFar(seen', Cost(alpha, beta, gamma, n), found', k', (bestDim', bestW'), bestError')
    {
      var w := weights[j];
      var error := RAbs(alpha * dim as real + beta * w as real + gamma - n);
      assert error == Cost(alpha, beta, gamma, n)((dim, w));
      VisitKeepsBest(seen', Cost(alpha, beta, gamma, n), found', k', (bestDim', bestW'), bestError', (dim, w));
      assert Pairs(dim, weights[..j + 1]) == Pairs(dim, weights[..j]) + [(dim, w)];
      if !found' || error < bestError' {
        k' := |seen'|;
        bestError', bestDim', bestW' := error, dim, w;
      }
      found' := true;
      seen' := seen' + [(dim, w)];
    }
    assert weights[..|weights|] == weights;
  }

  /**
   * The two nested loops for one particle: the state with the smallest error,
   * the first one visited among equals since the update needs `error < best_error`.
   */
  method BestState(alpha: real, beta: real, gamma: real, n: real) returns (bestDim: int, bestW: int, bestError: real)
    ensures exists k :: IsFirstMin(States, Cost(alpha, beta, gamma, n), k) && States[k] == (bestDim, bestW)
    ensures bestError == StateError(alpha, beta, gamma, n, (bestDim, bestW))
  {
    bestDim, bestW, bestError := 1, 0, 0.0;
    var found := false;
    ghost var seen: seq<(int, int)> := [];
    ghost var k := 0;
    for r := 0 to |PossibleReps|
      invariant seen == Flatten(PossibleReps[..r])
      invariant BestSoFar(seen, Cost(alpha, beta, gamma, n), found, k, (bestDim, bestW), bestError)
    {
      assert PossibleReps[..r + 1][..r] == PossibleReps[..r];
      seen, found, k, bestDim, bestW, bestError :=
        ScanWeights(alpha, beta, gamma, n, PossibleReps[r].0, PossibleReps[r].1, seen, found, k, bestDim, bestW, bestError);
    }
    assert PossibleReps[..|PossibleReps|] == PossibleReps;
    VisitOrderIsCatalogue();
  }

  /** One record of `best_assignments` (the exponent is q / 4). */
  datatype BestAssignment = BestAssignment(name: string, dim: int, w: int, nActual: real, error: real)

  /** The particle loop of `try_different_assignments`. */
  method TryDifferentAssignments(particles: seq<Record>, alpha: real, beta: real, gamma: real)
    returns (best: seq<BestAssignment>)
    ensures |best| == |particles|
    ensures forall i :: 0 <= i < |particles| ==>
      var b := best[i];
      b.name == particles[i].name && b.nActual == Exponent(particles[i])
      && (exists k :: IsFirstMin(States, Cost(alpha, beta, gamma, b.nActual), k) && States[k] == (b.dim, b.w))
      && b.error == StateError(alpha, beta, gamma, b.nActual, (b.dim, b.w))
  {
    best := [];
    for i := 0 to |particles|
      invariant |best| == i
      invariant forall j :: 0 <= j < i ==>
        var b := best[j];
        b.name == particles[j].name && b.nActual == Exponent(particles[j])
        && (exists k :: IsFirstMin(States, Cost(alpha, beta, gamma, b.nActual), k) && States[k] == (b.dim, b.w))
        && b.error == StateError(alpha, beta, gamma, b.nActual, (b.dim, b.w))
    {
      var n := Exponent(particles[i]);
      var dim, w, error := BestState(alpha, beta, gamma, n);
      best := best + [BestAssignment(particles[i].name, dim, w, n, error)];
    }
  }

  /** The chosen state is determined: no other state is a first minimiser. */
  lemma BestStateDetermined(alpha: real, beta: real, gamma: real, n: real, s1: (int, int), s2: (int, int))
    requires exists k :: IsFirstMin(States, Cost(alpha, beta, gamma, n), k) && States[k] == s1
    requires exists k :: IsFirstMin(States, Cost(alpha, beta, gamma, n), k) && States[k] == s2
    ensures s1 == s2
  {
    var k1 :| IsFirstMin(States, Cost(alpha, beta, gamma, n), k1) && States[k1] == s1;
    var k2 :| IsFirstMin(States, Cost(alpha, beta, gamma, n), k2) && States[k2] == s2;
    FirstMinUnique(States, Cost(alpha, beta, gamma, n), k1, k2);
  }

  /** One entry of `all_states` in `predict_new_particles`. */
  datatype LabelledState = LabelledState(rep: string, dim: int, w: int)

  /** The enumeration of `predict_new_particles`: the trivial state, then one loop per weight list. */
  method AllStates() returns (states: seq<LabelledState>)
    ensures |states| == |States| == 13
    ensures forall i :: 0 <= i < |states| ==> (states[i].dim, states[i].w) == States[i]
    ensures forall i :: 0 <= i < |states| ==>
      states[i].rep == (if states[i].dim == 1 then "1D" else if states[i].dim == 3 then "3D" else if states[i].dim == 4 then "4D" else "5D")
  {
    states := [LabelledState("1D", 1, 0)];
    var w3 := [-1, 0, 1];
    for j := 0 to |w3|
      invariant states == [LabelledState("1D", 1, 0)] + seq(j, k requires 0 <= k < j => LabelledState("3D", 3, w3[k]))
    {
      states := states + [LabelledState("3D", 3, w3[j])];
    }
    ghost var s3 := states;
    var w4 := [-3, -1, 1, 3];
    for j := 0 to |w4|
      invariant states == s3 + seq(j, k requires 0 <= k < j => LabelledState("4D", 4, w4[k]))
    {
      states := states + [LabelledState("4D", 4, w4[j])];
    }
    ghost var s4 := states;
    var w5 := [-2, -1, 0, 1, 2];
    for j := 0 to |w5|
      invariant states == s4 + seq(j, k requires 0 <= k < j => LabelledState("5D", 5, w5[k]))
    {
      states := states + [LabelledState("5D", 5, w5[j])];
    }
  }
}
