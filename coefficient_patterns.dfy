/**
 * `coefficient_patterns`: family filters over the coefficient table,
 * generation totals, the parity label, and the generation of triples not yet
 * assigned to a particle, sorted by q, with a note for each shown one.
 */
module CoefficientPatterns {
  import opened Wrappers
  import opened Basis
  import opened Strings
  import opened Sorting
  import opened Tally
  import opened ParticleData
  import opened NameTags
  import opened Enumeration
  import opened Definitive

  /** `known_coeffs`: the set literal of generate_predictions. */
  const KnownCoeffs: set<Triple> := {
    Triple(-28, -16, 10), Triple(-30, -12, 10), Triple(-30, -6, 7),
    Triple(-30, 0, 10), Triple(-30, 4, 8), Triple(-30, 6, 7),
    Triple(-29, 4, 9), Triple(-29, 7, 8), Triple(-29, 4, 10),
    Triple(-30, 5, 10), Triple(-28, 6, 10), Triple(-28, 12, 6),
    Triple(-28, 9, 8)}

  /** Every table row's triple is in the set literal. */
  lemma TableTriplesKnown()
    ensures forall i :: 0 <= i < |Coeffs| ==> Coeffs[i].1 in KnownCoeffs
  {
    forall i | 0 <= i < |Coeffs| ensures Coeffs[i].1 in KnownCoeffs {
      if i < 5 { } else if i < 10 { } else { }
    }
  }

  /**
   * The set literal holds only table triples; its thirteen members cover
   * fifteen rows because strange quark and muon, and W and Z, share a triple.
   */
  lemma KnownCoeffsAreTableTriples()
    ensures forall t :: t in KnownCoeffs <==> exists i :: 0 <= i < |Coeffs| && Coeffs[i].1 == t
    ensures Coeffs[6].1 == Coeffs[7].1 && Coeffs[12].1 == Coeffs[13].1
  {
    TableTriplesKnown();
    forall t | t in KnownCoeffs ensures exists i :: 0 <= i < |Coeffs| && Coeffs[i].1 == t {
      if t == Triple(-28, -16, 10) { assert Coeffs[0].1 == t; }
      else if t == Triple(-30, -12, 10) { assert Coeffs[1].1 == t; }
      else if t == Triple(-30, -6, 7) { assert Coeffs[2].1 == t; }
      else if t == Triple(-30, 0, 10) { assert Coeffs[3].1 == t; }
      else if t == Triple(-30, 4, 8) { assert Coeffs[4].1 == t; }
      else if t == Triple(-30, 6, 7) { assert Coeffs[5].1 == t; }
      else if t == Triple(-29, 4, 9) { assert Coeffs[6].1 == t; }
      else if t == Triple(-29, 7, 8) { assert Coeffs[8].1 == t; }
      else if t == Triple(-29, 4, 10) { assert Coeffs[9].1 == t; }
      else if t == Triple(-30, 5, 10) { assert Coeffs[10].1 == t; }
      else if t == Triple(-28, 6, 10) { assert Coeffs[11].1 == t; }
      else if t == Triple(-28, 12, 6) { assert Coeffs[12].1 == t; }
      else { assert Coeffs[14].1 == t; }
    }
  }

  /** The four family filters of the comprehensions, on a name. */
  predicate IsNeutrinoName(name: string)
  {
    Contains(name, "neutrino")
  }

  predicate IsChargedLeptonName(name: string)
  {
    (Contains(name, "electron") || Contains(name, "muon") || Contains(name, "tau")) && !Contains(name, "neutrino")
  }

  predicate IsQuarkName(name: string)
  {
    Contains(name, "quark")
  }

  predicate IsBosonName(name: string)
  {
    Contains(name, "boson")
  }

  /** Which of the four filters accept a name, in the order the script prints them. */
  function FamilyFlags(name: string): seq<bool>
  {
    [IsNeutrinoName(name), IsChargedLeptonName(name), IsQuarkName(name), IsBosonName(name)]
  }

  /** `{k: v for k, v in coeffs.items() if pred(k)}`, in table order. */
  function FilterRows(coeffs: seq<(string, Triple)>, pred: string -> bool): (r: seq<(string, Triple)>)
    ensures |r| <= |coeffs|
    ensures forall row :: row in r <==> row in coeffs && pred(row.0)
  {
    if coeffs == [] then []
    else
      var rest := FilterRows(coeffs[1..], pred);
      assert forall row :: row in coeffs <==> row == coeffs[0] || row in coeffs[1..];
      if pred(coeffs[0].0) then [coeffs[0]] + rest else rest
  }

  /** The four filters, read off the tags of a name. */
  function TagFamilies(tags: Tags): seq<bool>
  {
    [tags.neutrino, (tags.electron || tags.muon || tags.tau) && !tags.neutrino, tags.quark, tags.boson]
  }

  lemma FamilyFlagsByTags(name: string)
    ensures FamilyFlags(name) == TagFamilies(TagsOf(name))
  {
  }

  /** How many of four flags are set. */
  lemma CountOfFour(f: seq<bool>)
    requires |f| == 4
    ensures Count(f, true) == (if f[0] then 1 else 0) + (if f[1] then 1 else 0) + (if f[2] then 1 else 0) + (if f[3] then 1 else 0)
  {
    var f1, f2, f3 := f[1..], f[2..], f[3..];
    assert f3[0] == f[3] && f3[1..] == [];
    assert Count(f3, true) == (if f[3] then 1 else 0);
    assert f2[0] == f[2] && f2[1..] == f3;
    assert Count(f2, true) == (if f[2] then 1 else 0) + Count(f3, true);
    assert f1[0] == f[1] && f1[1..] == f2;
    assert Count(f1, true) == (if f[1] then 1 else 0) + Count(f2, true);
  }

  lemma TableTagsOneFamily(i: int)
    requires 0 <= i < |TableTags|
    ensures Count(TagFamilies(TableTags[i]), true) == 1
  {
    CountOfFour(TagFamilies(TableTags[i]));
  }

  /** Each table name passes exactly one of the four family filters. */
  lemma FamiliesPartition(i: int)
    requires 0 <= i < |Coeffs|
    ensures Count(FamilyFlags(Coeffs[i].0), true) == 1
  {
    RowTags(i);
    FamilyFlagsByTags(Coeffs[i].0);
    TableTagsOneFamily(i);
  }

  /** The family dicts partition the table: every row lies in exactly one of them. */
  lemma FamilyDictsPartition(row: (string, Triple))
    requires row in Coeffs
    ensures Count([row in FilterRows(Coeffs, IsNeutrinoName), row in FilterRows(Coeffs, IsChargedLeptonName),
                   row in FilterRows(Coeffs, IsQuarkName), row in FilterRows(Coeffs, IsBosonName)], true) == 1
  {
    var i :| 0 <= i < |Coeffs| && Coeffs[i] == row;
    FamiliesPartition(i);
  }

  /** The `generations` dict. */
  const Generations: seq<seq<string>> := [
    ["electron", "electron_neutrino", "up_quark", "down_quark"],
    ["muon", "muon_neutrino", "charm_quark", "strange_quark"],
    ["tau", "tau_neutrino", "top_quark", "bottom_quark"]]

  /** `coeffs[name]` when `name in coeffs`: the first row with that name. */
  function Lookup(coeffs: seq<(string, Triple)>, name: string): Option<Triple>
  {
    if coeffs == [] then None
    else if coeffs[0].0 == name then Some(coeffs[0].1)
    else Lookup(coeffs[1..], name)
  }

  /** The lookup succeeds exactly for names of the table and returns that row's triple. */
  lemma {:induction false} LookupFinds(coeffs: seq<(string, Triple)>, name: string)
    ensures Lookup(coeffs, name).Some? <==> exists i :: 0 <= i < |coeffs| && coeffs[i].0 == name
    ensures Lookup(coeffs, name).Some? ==> exists i :: 0 <= i < |coeffs| && coeffs[i] == (name, Lookup(coeffs, name).value)
  {
    if coeffs != [] && coeffs[0].0 != name {
      var r := Lookup(coeffs[1..], name);
      LookupFinds(coeffs[1..], name);
      if r.Some? {
        var i :| 0 <= i < |coeffs[1..]| && coeffs[1..][i] == (name, r.value);
        assert coeffs[i + 1] == (name, r.value);
      }
      if exists i :: 0 <= i < |coeffs| && coeffs[i].0 == name {
        var i :| 0 <= i < |coeffs| && coeffs[i].0 == name;
        assert coeffs[1..][i - 1].0 == name;
      }
    } else if coeffs != [] {
      assert coeffs[0] == (name, coeffs[0].1);
    }
  }

  /** `sum(f(coeffs[name]) for name in particles if name in coeffs)`. */
  function GenerationSum(coeffs: seq<(string, Triple)>, names: seq<string>, f: Triple -> int): int
  {
    if names == [] then 0
    else
      var rest := GenerationSum(coeffs, names[1..], f);
      match Lookup(coeffs, names[0])
      case None => rest
      case Some(t) => f(t) + rest
  }

  /** The three generator sums of a generation (`total_a`, `total_b`, `total_c`) as one triple. */
  function GenerationTotals(coeffs: seq<(string, Triple)>, names: seq<string>): Triple
  {
    Triple(GenerationSum(coeffs, names, ColA), GenerationSum(coeffs, names, ColB), GenerationSum(coeffs, names, ColC))
  }

  /** The totals of a generation, read as a triple, give the sum of its q values. */
  lemma {:induction false} TotalsEvaluate(coeffs: seq<(string, Triple)>, names: seq<string>)
    ensures Eval(GenerationTotals(coeffs, names)) == GenerationSum(coeffs, names, Eval)
  {
    if names != [] {
      TotalsEvaluate(coeffs, names[1..]);
    }
  }

  /** With distinct names, looking up a row's name finds that row. */
  lemma {:induction false} LookupAt(coeffs: seq<(string, Triple)>, i: int)
    requires DistinctNames(coeffs)
    requires 0 <= i < |coeffs|
    ensures Lookup(coeffs, coeffs[i].0) == Some(coeffs[i].1)
  {
    if i > 0 {
      assert coeffs[0].0 != coeffs[i].0;
      assert coeffs[1..][i - 1] == coeffs[i];
      LookupAt(coeffs[1..], i - 1);
    }
  }

  /** A generation of four names that are all found adds up the four rows. */
  lemma SumOfFour(coeffs: seq<(string, Triple)>, names: seq<string>, ts: seq<Triple>, f: Triple -> int)
    requires |names| == |ts| == 4
    requires Lookup(coeffs, names[0]) == Some(ts[0]) && Lookup(coeffs, names[1]) == Some(ts[1])
    requires Lookup(coeffs, names[2]) == Some(ts[2]) && Lookup(coeffs, names[3]) == Some(ts[3])
    ensures GenerationSum(coeffs, names, f) == f(ts[0]) + f(ts[1]) + f(ts[2]) + f(ts[3])
  {
    var n1, n2, n3 := names[1..], names[2..], names[3..];
    assert n3[0] == names[3] && n3[1..] == [];
    assert GenerationSum(coeffs, n3, f) == f(ts[3]);
    assert n2[0] == names[2] && n2[1..] == n3;
    assert GenerationSum(coeffs, n2, f) == f(ts[2]) + f(ts[3]);
    assert n1[0] == names[1] && n1[1..] == n2;
    assert GenerationSum(coeffs, n1, f) == f(ts[1]) + f(ts[2]) + f(ts[3]);
  }

  /** The totals of a four-name generation, given the table rows its names find. */
  lemma TotalsOfRows(names: seq<string>, rows: seq<int>)
    requires |names| == |rows| == 4
    requires forall k :: 0 <= k < 4 ==> 0 <= rows[k] < |Coeffs| && names[k] == Coeffs[rows[k]].0
    ensures var ts := [Coeffs[rows[0]].1, Coeffs[rows[1]].1, Coeffs[rows[2]].1, Coeffs[rows[3]].1];
      GenerationTotals(Coeffs, names) == Triple(
        ts[0].a + ts[1].a + ts[2].a + ts[3].a, ts[0].b + ts[1].b + ts[2].b + ts[3].b, ts[0].c + ts[1].c + ts[2].c + ts[3].c)
  {
    CoeffsNamesDistinct();
    LookupAt(Coeffs, rows[0]); LookupAt(Coeffs, rows[1]); LookupAt(Coeffs, rows[2]); LookupAt(Coeffs, rows[3]);
    var ts := [Coeffs[rows[0]].1, Coeffs[rows[1]].1, Coeffs[rows[2]].1, Coeffs[rows[3]].1];
    SumOfFour(Coeffs, names, ts, ColA);
    SumOfFour(Coeffs, names, ts, ColB);
    SumOfFour(Coeffs, names, ts, ColC);
  }

  /** The totals printed for the three generations. */
  lemma GenerationOneRows()
    ensures Generations[0] == [Coeffs[3].0, Coeffs[0].0, Coeffs[4].0, Coeffs[5].0]
  {
  }

  lemma GenerationOneTotals()
    ensures GenerationTotals(Coeffs, Generations[0]) == Triple(-118, -6, 35)
  {
    GenerationOneRows();
    TotalsOfRows(Generations[0], [3, 0, 4, 5]);
  }

  lemma GenerationTwoRows()
    ensures Generations[1] == [Coeffs[7].0, Coeffs[1].0, Coeffs[8].0, Coeffs[6].0]
  {
  }

  lemma GenerationTwoTotals()
    ensures GenerationTotals(Coeffs, Generations[1]) == Triple(-117, 3, 36)
  {
    GenerationTwoRows();
    TotalsOfRows(Generations[1], [7, 1, 8, 6]);
  }

  lemma GenerationThreeRows()
    ensures Generations[2] == [Coeffs[9].0, Coeffs[2].0, Coeffs[11].0, Coeffs[10].0]
  {
  }

  lemma GenerationThreeTotals()
    ensures GenerationTotals(Coeffs, Generations[2]) == Triple(-117, 9, 37)
  {
    GenerationThreeRows();
    TotalsOfRows(Generations[2], [9, 2, 11, 10]);
  }

  /** The parity label of a row. */
  function Parity(t: Triple): string
  {
    if t.a % 2 == 0 && t.b % 2 == 0 && t.c % 2 == 0 then "all even" else "not all even"
  }

  lemma ModTwoShift(k: int, b: int)
    ensures (2 * k + b) % 2 == b % 2
  {
    var r := b % 2;
    assert b == 2 * (b / 2) + r;
    assert 2 * k + b == 2 * (k + b / 2) + r;
  }

  /** 8a and 24c are even, so q has the parity of b. */
  lemma ParityOfQ(t: Triple)
    ensures Eval(t) % 2 == t.b % 2
  {
    ModTwoShift(4 * t.a + 7 * t.b + 12 * t.c, t.b);
    assert Eval(t) == 2 * (4 * t.a + 7 * t.b + 12 * t.c) + t.b;
  }

  /** A row labelled "all even" has even q, and the label is "all even" exactly when a, b, c are even. */
  lemma AllEvenRows(t: Triple)
    ensures Parity(t) == "all even" <==> t.a % 2 == 0 && t.b % 2 == 0 && t.c % 2 == 0
    ensures Parity(t) == "all even" ==> Eval(t) % 2 == 0
  {
    ParityOfQ(t);
  }

  /** `range(-32, -27)`, `range(-20, 15)`, `range(5, 13)`: a stops at -28. */
  const GenerationBox := Box(-32, -27, -20, 15, 5, 13)

  predicate Unassigned(t: Triple)
  {
    t !in KnownCoeffs && -250 < Eval(t) < 150
  }

  function UnassignedFilter(): Triple -> bool
  {
    t => Unassigned(t)
  }

  /** The note printed beside a prediction. */
  function Note(q: int): (note: string)
    ensures note == "very heavy" <==> q >= 150
  {
    if q < -200 then "very light (neutrino-like)"
    else if q < -100 then "light (neutrino/electron-like)"
    else if q < 0 then "sub-electron mass"
    else if q < 50 then "electron/up quark region"
    else if q < 100 then "charm/tau region"
    else if q < 150 then "top/W/Z region"
    else "very heavy"
  }

  /** The outputs of `generate_predictions`. */
  datatype Generated = Generated(predictions: seq<Prediction>, shown: seq<Prediction>, notes: seq<string>)

  /**
   * `generate_predictions`: the unassigned triples of the box with
   * -250 < q < 150, sorted by q, the first twenty shown with their notes.
   */
  method GeneratePredictions() returns (g: Generated)
    ensures IsSortedPredictionList(GenerationBox, UnassignedFilter(), g.predictions)
    ensures g.shown == Head(g.predictions, 20)
    ensures |g.notes| == |g.shown| && forall i :: 0 <= i < |g.shown| ==> g.notes[i] == Note(g.shown[i].q)
  {
    var found := Enumerate(GenerationBox, UnassignedFilter());
    SortEnumeration(GenerationBox, UnassignedFilter(), found);
    var predictions := SortBy(found, ByQ);
    var shown := Head(predictions, 20);
    var notes := NotesFor(shown);
    g := Generated(predictions, shown, notes);
  }

  /** The note printed beside each shown prediction. */
  method NotesFor(shown: seq<Prediction>) returns (notes: seq<string>)
    ensures |notes| == |shown| && forall i :: 0 <= i < |shown| ==> notes[i] == Note(shown[i].q)
  {
    notes := MapEach(shown, NoteOf);
  }

  function NoteOf(p: Prediction): string
  {
    Note(p.q)
  }

  /**
   * What the sorted list holds: unassigned triples of the box with
   * -250 < q = 8a + 15b + 24c < 150, all of them; and so no note says "very heavy".
   */
  lemma GeneratedPredictions(g: Generated)
    requires IsSortedPredictionList(GenerationBox, UnassignedFilter(), g.predictions)
    requires g.shown == Head(g.predictions, 20)
    requires |g.notes| == |g.shown| && forall i :: 0 <= i < |g.shown| ==> g.notes[i] == Note(g.shown[i].q)
    ensures forall p :: p in g.predictions ==>
      -32 <= p.t.a <= -28 && -20 <= p.t.b <= 14 && 5 <= p.t.c <= 12
      && p.t !in KnownCoeffs && p.q == Eval(p.t) && -250 < p.q < 150
    ensures forall t :: InBox(t, GenerationBox) && t !in KnownCoeffs && -250 < Eval(t) < 150 ==>
      Prediction(t, Eval(t)) in g.predictions
    ensures forall i :: 0 <= i < |g.notes| ==> g.notes[i] != "very heavy"
  {
    forall p | p in g.predictions ensures p.t !in KnownCoeffs && -250 < p.q < 150 {
      assert Kept(GenerationBox, UnassignedFilter(), p.t);
    }
    forall t | InBox(t, GenerationBox) && t !in KnownCoeffs && -250 < Eval(t) < 150
      ensures Prediction(t, Eval(t)) in g.predictions
    {
      assert Kept(GenerationBox, UnassignedFilter(), t);
    }
    forall i | 0 <= i < |g.notes| ensures g.notes[i] != "very heavy" {
      assert g.shown[i] in g.predictions;
    }
  }
}
