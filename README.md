# Integer layer of the geometric particle-physics scripts

The analysis scripts of this repository assign each Standard Model particle an
integer code `q = 4n`, four times its golden-ratio exponent
`n = log(m / m_e) / log(phi)`. Around that code they do a good deal of
integer work, and this project models that integer layer in Dafny. The model
takes `q`, or a `(name, q)` table, as input. It does not compute `q` from
masses.

The model covers three parts.

- **Decomposition over the Casimir basis 8, 15, 24.**
  - The best fit `q = 8a + 15b + 24c + d` over a bounded box. The kept triple
    is the first minimiser in loop order, because the update uses a strict `<`.
  - The exhaustive listing of every triple within a tolerance.
  - The checks of the hard-coded `(a, b, c)` tables against the exact `q`
    values.
  - The enumeration of unused triples, with its exclusion, its `q` window and
    its stable sort by `q`.
- **Representation bookkeeping for A5.**
  - The normalised Casimir value `dim^2 - 1`.
  - The catalogue of the thirteen `(dim, w)` states.
  - The heuristic weight choices from `q mod 3/4/5` and from the particle name.
  - The argmin loops that pick a weight or a state.
  - The search over the 24 injective placements of the three neutrinos on the
    weights of the 4-dimensional representation.
- **Integer statistics on `q`.**
  - Divisibility counts, the first `3a + 4b` split, and the representation
    labels.
  - Gap listing, consecutive differences, and extrapolation by the most common
    difference.
  - The remainder check against 8, 15 and 24, and the `q mod 4` labels.
  - The three definitions of the digital root, and the Fibonacci hit counts
    built on them.
  - The Fibonacci and Lucas membership counters, and the Fibonacci table.

Python idioms are modelled explicitly:

- `list.sort` and `sorted` are stable. `Sorting.SortBy` is an insertion sort
  proved sorted, a permutation and tie-preserving.
- `Counter.most_common(1)` keeps the first-seen element among ties
  (`Tally.MostCommon`).
- `dict` insertion order is kept by modelling ordered tables as sequences of
  pairs.
- `%` and `//` with a positive divisor are Dafny's Euclidean `%` and `/`.
- A loop that updates only on strict `<` returns the first minimiser in
  visiting order (`ArgMin.IsFirstMin`).

Lookups that raise `KeyError` in the scripts return a `Failure` naming the
missing key. So does the `IndexError` of the negative-index Fibonacci table.

Each script has its own module: `QPatternAnalysis`, `Definitive`,
`CoefficientPatterns`, `VerifySimple`, `Q4N`, `A5CasimirRatio`,
`ModelBuilder`, `NeutrinoModel`, `QuantumNumbers`, `FibonacciRootAnalysis`,
`FocusedPatterns` and `GoldenModular`. These share a few modules:

- `ParticleData`: the tables and `load_data`.
- `Decompose` and `Enumeration`: the box searches.
- `A5Reps`: the state catalogue.
- `DigitalRoots` and `FibonacciNumbers`.
- `Grouping`, `Counting`, `Tally`, `Sorting`, `Strings` and `Basis`: the
  Python built-ins the scripts lean on.

## Model

| member | source | states |
|---|---|---|
| ParticleData.Exponent | definitive_a5_model_fixed.py:59 | the stored exponent n satisfies 4n = q exactly |
| ParticleData.LoadData | definitive_a5_model_fixed.py:53-59 | succeeds iff every row's name is a key of `exact_q`; then one record per row, in row order, with q = exact_q[name]; otherwise fails with the first missing name (KeyError) |
| ParticleData.CoeffsReproduceExactQ | definitive_a5_model_fixed.py:75-109 | every row (a, b, c) of the coefficient table gives 8a + 15b + 24c equal to `exact_q` of its name |
| Decompose.BestFitWithOffset | q_pattern_analysis.py:71-94 | when some triple of [-30, 30] x [-20, 20] x [-10, 10] passes `abs(d) < 20`, the kept triple passes, d = q - (8a + 15b + 24c), its \|d\| is minimal over the whole box and strictly smaller than that of every passing triple visited earlier (strict `<`), and the reported error is 0; otherwise the result stays (0, 0, 0, 0) and the reported error is \|q\| |
| Decompose.NearExactlyInRange | q_pattern_analysis.py:76-84 | some box triple passes `abs(d) < 20` exactly when -800 < q < 800 |
| Decompose.BestFitExact | q_pattern_analysis.py:80-92 | for every q in [-240, 136), which covers all fifteen codes, the best fit has d = 0 and reproduces q |
| Decompose.BestFitUnique | q_pattern_analysis.py:86-88 | at most one fit meets the best-fit conditions, so the loop's answer is determined |
| Decompose.ListRepresentations | q_pattern_analysis.py:107-115 | the listing holds exactly the triples of [-10, 10]^3 with \|d\| <= 10, each with d = q - (8a + 15b + 24c), in strict lexicographic (a, b, c) order |
| Decompose.RepresentationListUnique | q_pattern_analysis.py:108-113 | two lists meeting those conditions are equal, so membership and order fix the listing |
| QPatternAnalysis.QValuesMatchExactQ | q_pattern_analysis.py:41-57 | the `q_values` dict has the fifteen names of the coefficient table, in its order, with the `exact_q` values |
| QPatternAnalysis.ExpressAll | q_pattern_analysis.py:71-115 | for every name, the best fit and its error as above, and the representation list as above |
| QPatternAnalysis.QValuesFitExactly | q_pattern_analysis.py:71-94 | every particle's best fit has d = 0 and error 0 |
| QPatternAnalysis.SimpleDim | q_pattern_analysis.py:169-178 | dims are 3, 4 or 5; neutrinos get 4; the electron and quarks get 3 |
| QPatternAnalysis.SimpleSpin | q_pattern_analysis.py:181-187 | spin is 1 exactly for W and Z in a boson category, 0.5 exactly for categories without "boson", 0 otherwise |
| QPatternAnalysis.FindSimpleModel | q_pattern_analysis.py:164-196 | one record per particle, in order, with C = dim^2 - 1 in {8, 15, 24} |
| Definitive.CheckCoefficients | definitive_a5_model_fixed.py:98-109 | succeeds iff every name is a key of `actual_q`; otherwise fails with the name of the first row whose name is missing (the KeyError); each mark is set iff 8a + 15b + 24c equals the looked-up q |
| Definitive.FindIntegerCoefficients | definitive_a5_model_fixed.py:75-111 | returns the coefficient table, with distinct names and every check mark set |
| Definitive.GroupNames | definitive_a5_model_fixed.py:210-227 | keys are exactly the coefficient values present; each name is in exactly the group of its own coefficient, in table order |
| Definitive.CoefficientSums | definitive_a5_model_fixed.py:236-240 | one (name, a + b + c) per row, in order |
| Definitive.FindSimpleRules | definitive_a5_model_fixed.py:201-253 | the c and b groupings partition the names; the sums as above; the second verification pass succeeds on the table with every row matching |
| Definitive.Column | definitive_a5_model_fixed.py:263-265 | one entry per row, the chosen coefficient of that row |
| Definitive.ColumnRange | definitive_a5_model_fixed.py:267-269 | None exactly for an empty table (where `min` raises); otherwise lo and hi bound every row and are attained |
| Definitive.TableRangeA | definitive_a5_model_fixed.py:263-269 | the a column of the table ranges over [-30, -28] |
| Definitive.TableRangeB | definitive_a5_model_fixed.py:263-269 | the b column ranges over [-16, 12] |
| Definitive.TableRangeC | definitive_a5_model_fixed.py:263-269 | the c column ranges over [6, 10] |
| Definitive.TriplesOf | definitive_a5_model_fixed.py:290 | the triples of the table, one per row, and nothing else |
| Definitive.PredictNewParticles | definitive_a5_model_fixed.py:255-298 | fails exactly on an empty table; otherwise the ranges as above, the predictions are every box triple that is not in the table and whose q is in (-300, 300) and passes the mass window, sorted stably by q, and the shown list is the first 10 |
| Definitive.PredictionsFiltered | definitive_a5_model_fixed.py:282-292 | every prediction lies in a in [-35, -26], b in [-20, 19], c in [5, 14], is no table triple, has q = 8a + 15b + 24c and -300 < q < 300 |
| Enumeration.Enumerate | coefficient_patterns.py:165-173 | the nested loops yield exactly the kept triples of the box, each once with its q, in lexicographic loop order |
| Enumeration.SortEnumeration | coefficient_patterns.py:176 | after the stable sort the list is nondecreasing in q, equal q values keep lexicographic order, and the members are unchanged |
| Enumeration.Head | coefficient_patterns.py:183 | `predictions[:n]`: a prefix of length min(n, len) |
| Enumeration.HeadSmallest | coefficient_patterns.py:183 | on a list sorted by q, every shown prediction has q at most that of every one not shown |
| CoefficientPatterns.TableTriplesKnown | coefficient_patterns.py:150-156 | every triple of the `coeffs` table is in `known_coeffs` |
| CoefficientPatterns.KnownCoeffsAreTableTriples | coefficient_patterns.py:10-26 | `known_coeffs` is exactly the set of table triples; muon and strange quark share one triple, W and Z another |
| CoefficientPatterns.FilterRows | coefficient_patterns.py:44-47 | a dict comprehension keeps exactly the rows whose name passes the test |
| CoefficientPatterns.FamilyDictsPartition | coefficient_patterns.py:44-47 | every table row is in exactly one of the neutrino, charged-lepton, quark and boson dicts |
| CoefficientPatterns.FamiliesPartition | coefficient_patterns.py:44-47 | every table name passes exactly one of the four family tests |
| CoefficientPatterns.LookupFinds | coefficient_patterns.py:102-104 | the `if name in coeffs` lookup finds a row exactly when the name occurs, and returns that row's triple |
| CoefficientPatterns.TotalsEvaluate | coefficient_patterns.py:101-105 | the q of the generation totals is the sum of the q values of its members |
| CoefficientPatterns.GenerationOneTotals | coefficient_patterns.py:101-105 | generation 1 totals are a = -118, b = -6, c = 35 |
| CoefficientPatterns.GenerationTwoTotals | coefficient_patterns.py:101-105 | generation 2 totals are a = -117, b = 3, c = 36 |
| CoefficientPatterns.GenerationThreeTotals | coefficient_patterns.py:101-105 | generation 3 totals are a = -117, b = 9, c = 37 |
| CoefficientPatterns.AllEvenRows | coefficient_patterns.py:127-132 | the label is "all even" iff a, b and c are all even, and then q is even |
| CoefficientPatterns.ParityOfQ | coefficient_patterns.py:127-132 | q = 8a + 15b + 24c has the parity of b |
| CoefficientPatterns.Note | coefficient_patterns.py:185-198 | the note is "very heavy" exactly when q >= 150 |
| CoefficientPatterns.NotesFor | coefficient_patterns.py:183-198 | one note per shown prediction, chosen by its q |
| CoefficientPatterns.GeneratePredictions | coefficient_patterns.py:142-200 | the predictions are every box triple outside `known_coeffs` with -250 < q < 150, each once, sorted stably by q; the shown list is the first 20, with their notes |
| CoefficientPatterns.GeneratedPredictions | coefficient_patterns.py:159-198 | every prediction has a in [-32, -28], b in [-20, 14], c in [5, 12], is unknown, has -250 < q < 150, and no note is "very heavy" |
| VerifySimple.SimpleRowsAreDefinitiveRows | verify_simple.py:6-21 | the 14 rows are rows of the coefficient table, name and triple |
| VerifySimple.SimpleTableMatchesExactQ | verify_simple.py:6-30 | every printed 8a + 15b + 24c equals `exact_q` of its name, and there is no bottom_quark row |
| VerifySimple.SimpleTableLandmarks | verify_simple.py:6-30 | the electron gives 0 and the top quark gives 106; W and Z share their triple and both give 100 |
| Q4N.Mod4Label | q4n_fundamental.py:152-162 | the label is one of the four printed strings |
| Q4N.Mod4LabelByResidue | q4n_fundamental.py:152-162 | `q % 4` is in 0..3 also for negative q, and two codes share a label exactly when they agree modulo 4 |
| Q4N.Mod4LabelPeriodic | q4n_fundamental.py:152-162 | adding a multiple of 4 to q keeps its label |
| Q4N.RepsCasimir | q4n_fundamental.py:301-307 | every entry of `reps` has C2 = dim^2 - 1, the trivial one included |
| Q4N.CheckQ | q4n_fundamental.py:318-323 | the inner loop prints the lines of the remainder check for one q; C2 = 0 is skipped before any `%` |
| Q4N.CheckCasimir | q4n_fundamental.py:317-323 | both loops print the lines for all q, in order |
| Q4N.CasimirLinesExact | q4n_fundamental.py:317-323 | every line has C2 > 0, multiple * C2 + remainder = q with 0 <= remainder < C2, and is near; every near pair with C2 > 0 is printed |
| Q4N.NearMultipleWithoutAbs | q4n_fundamental.py:322 | the `abs` on the remainder is redundant, since the remainder is never negative |
| Q4N.BestWeight | q4n_fundamental.py:372-383 | the chosen w minimises \|q - 4w\| over [-3, -1, 1, 3], is the first such w in list order, and best_q0 = q - 4w |
| Q4N.FirstBestWeightUnique | q4n_fundamental.py:378-383 | the first best weight is unique |
| Q4N.BestWeightOfSamples | q4n_fundamental.py:363-383 | every q above 8 picks w = 3; q = 0 ties between -1 and 1 and keeps -1 |
| A5CasimirRatio.CasimirNormalized | a5_casimir_ratio.py:13-24 | every branch agrees with dim^2 - 1, for every integer dim |
| A5CasimirRatio.PossibilitiesAreStates | a5_casimir_ratio.py:85-90 | 13 entries, the catalogue states in order, each with C = casimir_normalized(dim) and w a weight of dim |
| A5CasimirRatio.AllStatesArePossibilities | a5_casimir_ratio.py:296-301 | `all_states` repeats `possibilities` entry for entry, with the label matching the dimension |
| A5CasimirRatio.AssignPass | a5_casimir_ratio.py:109-138 | one pass appends the records its rule accepts, in particle order |
| A5CasimirRatio.FindBestAssignments | a5_casimir_ratio.py:106-138 | the five passes, in order |
| A5CasimirRatio.PassRuleSound | a5_casimir_ratio.py:108-138 | every rule gives C = casimir_normalized(dim) and a weight of dim; quarks get weights in {-1, 0, 1}, muon and tau in {-3, -1}, bosons in {-2, -1, 0} |
| A5CasimirRatio.PassOutputExact | a5_casimir_ratio.py:109-138 | a pass outputs one record for each accepted particle, with its name and q and the rule's C, w and dim, and nothing else |
| A5CasimirRatio.AssignmentsSound | a5_casimir_ratio.py:106-138 | every assignment has C = casimir_normalized(dim) and a weight of its representation |
| A5CasimirRatio.PassesDisjoint | a5_casimir_ratio.py:108-138 | no name is accepted by two passes |
| A5CasimirRatio.AssignedInOnePass | a5_casimir_ratio.py:106-138 | a name shows up in the output of one pass at most |
| A5Reps.Weights | model_builder_clean.py:188-193 | the weight list of dimensions 1, 3, 4, 5 has dim entries; other dimensions have none |
| A5Reps.WeightsExact | model_builder_clean.py:188-193 | the weight lists hold exactly the arithmetically described states |
| A5Reps.StatesByDimension | model_builder_clean.py:246-261 | the catalogue is the weight lists of 1, 3, 4 and 5, concatenated in that order |
| A5Reps.StatesSound | a5_casimir_ratio.py:85-90 | 13 states, each a valid (dim, w) |
| A5Reps.StatesDistinct | a5_casimir_ratio.py:85-90 | no state is listed twice |
| A5Reps.StatesComplete | a5_casimir_ratio.py:85-90 | every valid (dim, w) is listed |
| ModelBuilder.AssignRep | model_builder_clean.py:61-103 | dim is in {1, 3, 4, 5}, the stored weight list is that of dim, and w is in it; the electron and the neutrinos get (1, 0) |
| ModelBuilder.AssignRepPeriodic | model_builder_clean.py:77-103 | the assignment depends on q only modulo 60 |
| ModelBuilder.AssignA5Representations | model_builder_clean.py:61-112 | one record per particle, in order, with the branch chain's choice and the particle's q |
| ModelBuilder.VisitOrderIsCatalogue | model_builder_clean.py:188-193 | the two nested loops over `possible_reps` visit exactly the thirteen catalogue states, in catalogue order |
| ModelBuilder.ScanWeights | model_builder_clean.py:208-215 | the inner loop keeps the first minimiser of the states seen so far |
| ModelBuilder.BestState | model_builder_clean.py:201-215 | the kept (dim, w) is the first catalogue state with the least error, and best_error is its error |
| ModelBuilder.BestStateDetermined | model_builder_clean.py:212-215 | that state is unique |
| ModelBuilder.TryDifferentAssignments | model_builder_clean.py:200-223 | one record per particle, each with its best state and error |
| ModelBuilder.AllStates | model_builder_clean.py:246-261 | 13 labelled states, in catalogue order |
| NeutrinoModel.NeutrinoExactQIsExactQ | neutrino_a5_model.py:20-25 | the table has fifteen distinct names, each with the shared `exact_q` value |
| NeutrinoModel.NeutrinoTables | neutrino_a5_model.py:46-52 | three distinct neutrino names, and the weights of dimension 4 |
| NeutrinoModel.PermutationsOfThree | neutrino_a5_model.py:64 | `permutations` of three values, in itertools order |
| NeutrinoModel.CombinationsThreeOfFour | neutrino_a5_model.py:62 | `combinations` of three out of four, in itertools order |
| NeutrinoModel.CandidatesExact | neutrino_a5_model.py:62-64 | the nested loops visit exactly the injective placements of the three neutrinos on {-3, -1, 1, 3} |
| NeutrinoModel.CandidatesDistinct | neutrino_a5_model.py:62-64 | they visit 24 placements, none twice |
| NeutrinoModel.AssignmentOf | neutrino_a5_model.py:79 | `dict(zip(neutrino_names, perm))` maps each neutrino to its weight |
| NeutrinoModel.AssignmentInjective | neutrino_a5_model.py:62-79 | every visited placement gives each neutrino its own weight of dimension 4 |
| NeutrinoModel.ScanPermutations | neutrino_a5_model.py:64-80 | the inner loop keeps the first minimiser of the placements seen so far |
| NeutrinoModel.FindNeutrinoWeights | neutrino_a5_model.py:57-89 | the kept assignment is that of the first placement with the least fit error, and best_error is its error |
| NeutrinoModel.UnifiedRep | neutrino_a5_model.py:105-132 | dim in {3, 4, 5} with C_norm = dim^2 - 1; neutrinos get dim 4 and their weight; the electron gets (3, -1); w is a weight of dim whenever the neutrino weights are |
| NeutrinoModel.UnifiedA5Model | neutrino_a5_model.py:101-136 | one record per particle, in order, with the branch chain's choice |
| NeutrinoModel.UnifiedStatesInCatalogue | neutrino_a5_model.py:101-136 | with any placement the search can return, every particle gets a catalogue state |
| NeutrinoModel.PredictStatesCatalogue | neutrino_a5_model.py:195-202 | `all_states` has 13 entries and equals the table of a5_casimir_ratio.py, C = dim^2 - 1 |
| QuantumNumbers.CategorySpacings | quantum_number_analysis.py:62-86 | one line per category present, no category twice, in the order the categories first appear among the particles, each with the sorted q values of that category and its spacing |
| QuantumNumbers.SpacingLines | quantum_number_analysis.py:70-86 | the line for each grouped category in order |
| QuantumNumbers.CategorySpacing | quantum_number_analysis.py:75-86 | present iff the category has at least 3 values; the differences are those of the sorted values, and the reported difference is the most common one with its count, the first met among equally common differences |
| QuantumNumbers.SpacingSpansRange | quantum_number_analysis.py:77-78 | the differences are nonnegative and sum to max - min |
| QuantumNumbers.DivisibleCount | quantum_number_analysis.py:98 | the count is between 0 and len; it is len iff d divides every q and 0 iff it divides none |
| QuantumNumbers.DivisorChains | quantum_number_analysis.py:96-99 | the counts for divisors 8, 4, 2 and 12, 6, 3, 2 are ordered by divisibility |
| QuantumNumbers.DivisibilityCounts | quantum_number_analysis.py:96-99 | one count per divisor of [2, 3, 4, 5, 6, 8, 12], in order |
| QuantumNumbers.Completion | quantum_number_analysis.py:111-115 | for fixed a the inner loop finds the one b in [-10, 10] with 3a + 4b = q, if any |
| QuantumNumbers.SearchB | quantum_number_analysis.py:111-115 | the inner loop with its `break` returns that b |
| QuantumNumbers.SearchSplit | quantum_number_analysis.py:108-117 | the loops with the `found` flag return the first split in lexicographic (a, b) order |
| QuantumNumbers.FirstSplitExact | quantum_number_analysis.py:108-117 | a split is found iff one exists, and it is the lexicographically least |
| QuantumNumbers.NoSplitBeyondSeventy | quantum_number_analysis.py:110-112 | q outside [-70, 70] has no split |
| QuantumNumbers.SplitAll | quantum_number_analysis.py:106-117 | the printed lines over all particles |
| QuantumNumbers.SplitLinesSound | quantum_number_analysis.py:106-117 | no more lines than particles, and each line is a true split 3a + 4b of the q of the particle it names |
| QuantumNumbers.RepLabel | quantum_number_analysis.py:147-162 | after `strip`, the label has "5" iff 5 divides q, "4" iff 4 does, "3" iff 3 does, the prime iff 3 divides q and q <= 0; it is empty iff none divides |
| QuantumNumbers.TentativeAssignments | quantum_number_analysis.py:145-166 | the kept entries sorted stably by q |
| QuantumNumbers.TentativeTable | quantum_number_analysis.py:145-166 | the table is sorted by q and holds exactly the particles with a nonempty label |
| QuantumNumbers.FindGaps | quantum_number_analysis.py:186-190 | the gap lines of the sorted values |
| QuantumNumbers.GapsAreMissingValues | quantum_number_analysis.py:179-190 | a value is reported missing iff it lies strictly between the least and greatest q and is not a q |
| QuantumNumbers.Diffs | quantum_number_analysis.py:196 | len - 1 differences of neighbours |
| QuantumNumbers.DiffsTelescope | quantum_number_analysis.py:196 | the differences sum to last - first |
| QuantumNumbers.SortedIffDiffsNonnegative | quantum_number_analysis.py:179-196 | a list is sorted iff all its differences are nonnegative |
| QuantumNumbers.Extrapolate | quantum_number_analysis.py:212-213 | five values starting at last + d, in steps of d |
| QuantumNumbers.PredictNewParticles | quantum_number_analysis.py:179-213 | the sorted q values, their gaps, and (iff there are at least two particles) the first-seen most common difference with the five extrapolated values |
| QuantumNumbers.PredictionStep | quantum_number_analysis.py:200-208 | the extrapolation step is nonnegative and as frequent as any difference |
| Tally.MostCommon | quantum_number_analysis.py:83-85 | an element of greatest count, the first seen among ties |
| Tally.MostCommonUnique | quantum_number_analysis.py:83-85 | an element of greatest count that is met before every other element of that count is the `most_common(1)` entry: the entry is unique |
| Sorting.SortBy | quantum_number_analysis.py:77 | the result is sorted by the key and a permutation of the input |
| Sorting.SortByTies | coefficient_patterns.py:176 | stability: elements with equal keys keep their input order |
| Strings.Strip | quantum_number_analysis.py:162 | an infix of the input with only spaces before and after it, itself starting and ending with a non-space (so the same non-space characters) |
| Strings.SpacesAround | quantum_number_analysis.py:162 | cutting trailing spaces and then leading spaces leaves an infix flanked by spaces |
| Grouping.GroupBy | quantum_number_analysis.py:62-68 | keys are exactly the categories present, each group is the values of its key in input order, and the key order lists each key once, ordered by the position of its first item (dict insertion order) |
| Grouping.FirstKeyIndex | quantum_number_analysis.py:66-67 | the position of the first item with a given key (where the dict receives that key), or the length when none has it |
| Grouping.FirstSeenStep | quantum_number_analysis.py:66-67 | a key met for the first time is appended after all keys already present, keeping the keys ordered by first appearance |
| Grouping.CollectInOrder | focused_a5_complete.py:322-327 | each group lists its members in input order |
| Grouping.GroupSizesTotal | focused_a5_complete.py:322-327 | the group sizes add up to the number of particles |
| Counting.CountWhere | focused_a5_complete.py:405-409 | the count is between 0 and len; it is len iff all pass and 0 iff none pass |
| Counting.CountWhereBoth | golden_modular_analysis.py:99-110 | two independent counters add up to the count of either plus the count of both |
| DigitalRoots.DigitalRoot | focused_a5_complete.py:273-276 | 0 maps to 0; every nonzero n, negative included, maps into 1..9; the root is congruent to n modulo 9 |
| DigitalRoots.DigitalRootUnique | golden_modular_analysis.py:165-168 | for nonzero n the root is the only value in 1..9 congruent to n |
| DigitalRoots.DigitalRootIdempotent | golden_modular_analysis.py:165-168 | the root of a root is itself |
| DigitalRoots.DigitalRootShift | golden_modular_analysis.py:165-168 | adding a multiple of 9 keeps the root, as long as neither value is 0 |
| DigitalRoots.DigitSum | fibonacci_digital_root_analysis.py:14 | the digit sum is congruent to n modulo 9, and is smaller than n from 10 up |
| DigitalRoots.RepeatedDigitSumIsDigitalRoot | fibonacci_digital_root_analysis.py:11-15 | for n >= 0 the looping definition equals the closed form; a negative n comes back unchanged |
| DigitalRoots.DigitalRootLoop | fibonacci_digital_root_analysis.py:11-15 | the loop ends; for n >= 0 it returns the closed-form root in 0..9; a negative n is returned as is |
| DigitalRoots.FibonacciHits | golden_modular_analysis.py:178-183 | at most one hit per multiplier |
| DigitalRoots.HitsPeriodic | golden_modular_analysis.py:176-183 | the hit count depends only on k modulo 9 (k and its shift nonzero) |
| DigitalRoots.LoopAndClosedHitsAgree | focused_a5_complete.py:289-293 | for k >= 0 the looping and closed-form roots give the same hit count |
| FibonacciRootAnalysis.CountFibonacciHits | fibonacci_digital_root_analysis.py:38-44 | the hits among val * 1..4, at most 4 |
| FibonacciRootAnalysis.TotalHits | fibonacci_digital_root_analysis.py:55-56 | at most 4 per row when every row has at most 4 hits |
| FibonacciRootAnalysis.AnalyzeHits | fibonacci_digital_root_analysis.py:35-70 | one row per table entry with its hits; total <= max_possible = 4 * len; `perfect` and `good` list the names with 4 and 3 hits, in order |
| FibonacciRootAnalysis.PerfectAndGood | fibonacci_digital_root_analysis.py:62-70 | with distinct names, `perfect` and `good` hold exactly the particles with 4 and 3 hits and are disjoint |
| FocusedPatterns.FourRoots | focused_a5_complete.py:289-293 | the roots of k * 1..4, four checks added |
| FocusedPatterns.FirstFifteen | focused_a5_complete.py:286 | `particles[:15]` |
| FocusedPatterns.ScanTotal | focused_a5_complete.py:295-296 | at most 4 hits per examined code |
| FocusedPatterns.FibonacciRootScan | focused_a5_complete.py:283-296 | total_checks = 4 * min(15, len); the hits are the per-code counts summed, and never exceed the checks |
| FocusedPatterns.GroupByCategory | focused_a5_complete.py:322-327 | the categories partition the particles, each group in input order, the categories in first-appearance order, the sizes adding up to len |
| FocusedPatterns.MembershipCounts | focused_a5_complete.py:399-409 | each count is between 0 and len, 0 iff no code is on that list |
| FocusedPatterns.FocusedListsOverlap | focused_a5_complete.py:405-406 | only 1, 2 and 3 are on both lists |
| FocusedPatterns.MembershipOverlap | focused_a5_complete.py:405-409 | the two counts add up to the codes on either list plus the codes equal to 1, 2 or 3 |
| FibonacciNumbers.FibonacciListIsFib | golden_modular_analysis.py:91 | the `fib` list is F(0) .. F(12) |
| FibonacciNumbers.LucasListIsLucas | golden_modular_analysis.py:94 | the `lucas` list is L(0) .. L(10) |
| FibonacciNumbers.LucasFromFib | golden_modular_analysis.py:91-94 | L(n) = F(n - 1) + F(n + 1) |
| FibonacciNumbers.ListsOverlap | golden_modular_analysis.py:91-94 | the values on both lists are exactly 1, 2 and 3 |
| FibonacciNumbers.ExtFibRecurrence | golden_modular_analysis.py:208 | the extension F(-m) = (-1)^(m+1) F(m) keeps the recurrence at every integer index |
| GoldenModular.RoundedWeight | golden_modular_analysis.py:75 | `round(-q / 2)` is within 1/2 of -q/2, ties going to the even neighbour |
| GoldenModular.WeightError | golden_modular_analysis.py:74-76 | the rounding error is 0 for even q and 1/2 for odd q |
| GoldenModular.ModularWeights | golden_modular_analysis.py:72-82 | per particle: k = -2n, its rounding, and that error |
| GoldenModular.CountFibonacciLucas | golden_modular_analysis.py:99-110 | each counter counts the ks on its list, at most len |
| GoldenModular.CountersOverlap | golden_modular_analysis.py:99-110 | a k on both lists raises both counters: the counts add up to the ks on either list plus those equal to 1, 2 or 3 |
| GoldenModular.RootRowFor | golden_modular_analysis.py:175-183 | the three roots of k, 2k, 3k and their hit count, at most 3 |
| GoldenModular.DigitalRootPatterns | golden_modular_analysis.py:175-185 | one such row per particle, in order |
| GoldenModular.ThreeAndFourRoots | golden_modular_analysis.py:178-183 | the four-root count exceeds the three-root count by the hit of 4k alone |
| GoldenModular.FibonacciAt | golden_modular_analysis.py:211-221 | n - 1 steps of (a, b) := (b, a + b) give F(n) |
| GoldenModular.PositiveSideAsWritten | golden_modular_analysis.py:225 | the lookup `fib_extended[10 + m]` succeeds only when that entry exists |
| GoldenModular.ExtendedTableAsWritten | golden_modular_analysis.py:209-227 | a range starting below 0 fails (IndexError) at its first index; one starting at 0 or above gives (n, F(n)) |
| GoldenModular.FirstLookupFails | golden_modular_analysis.py:225 | at n = -10 the empty list has no entry 20 |
| GoldenModular.ExtendedFibonacci | golden_modular_analysis.py:207-227 | the intended table: 21 entries for -10 .. 10 with F(-m) = (-1)^(m+1) F(m) |

## Left out

- Exponent quantisation is not modelled. `log(mass / m_e) / log(phi)` and the `round(4n) / 4` that turns it into q use floating point. Every member takes integer q, or a `(name, q)` table, as input.
- The `np.linalg.lstsq` fits, their parameters, mean errors and integer deviations are left out. They are foreign numerics on floats.
- NeutrinoModel.FindNeutrinoWeights: the error of a placement comes from a caller-supplied function `fitError`. The least-squares fit behind it is left out.
- ModelBuilder.BestState: the model parameters alpha, beta, gamma and the exponent are exact reals. Floating-point rounding of `abs(n_pred - n)` is not modelled.
- Masses `m_e * phi ** n` and their printouts are left out.
- Definitive.PredictNewParticles: the mass window `1e-10 < mass < 1e10` is a caller predicate `inWindow` on q. The sort by mass is modelled as the sort by q, since mass increases with q. Sorting by the float exponent gives the same stable order.
- The other sorts by mass are left out: a5_casimir_ratio.py:320, model_builder_clean.py:280 and neutrino_a5_model.py:216.
- Database access (`sqlite3`), printing, the `next.txt`/`next_steps.txt` writes and the saved model files are I/O and are left out. `load_data` is modelled as a function of the rows it reads; the mass and charge columns are not carried.
- GoldenModular.ModularWeights: returns the three new fields per particle instead of adding them to the particle dicts in place.
- GoldenModular.CountFibonacciLucas and FocusedPatterns.MembershipCounts: the percentages they print, and the ZeroDivisionError on an empty list, are not modelled. The same holds for fibonacci_digital_root_analysis.py:59 and focused_a5_complete.py:309.
- QuantumNumbers.DivisibilityCounts: the percentage `divisible/len(all_q)*100` it prints is not modelled, and neither is the ZeroDivisionError that this division raises on an empty particle list (quantum_number_analysis.py:99). The model returns seven zero counts there instead.
- The muon/tau printout at fibonacci_digital_root_analysis.py:83-89 is not modelled. It is formatting only.
- The float matching of mass ratios against the Fibonacci table (golden_modular_analysis.py:233-240) is not modelled.
- The eigenvalue, triplet and neutrino-exponent searches of focused_a5_complete.py (202-227 and 329 onwards) are float work and are left out. So is the `sorted(set(q_ints))` printout at focused_a5_complete.py:402.
- The mass-based checks of q4n_fundamental.py are left out: the `factor * n` integrality table (41-49), the `u ** q` ratios (177-182) and the spin table printout (198-213).
- A5CasimirRatio.FindBestAssignments: the back-fill of `spin` into the assignment dicts after the fit is not modelled.
- QuantumNumbers.PredictNewParticles: of the `most_common(5)` printout, only the first entry is modelled, the one the extrapolation uses.
- CoefficientPatterns: the statistics printouts are not modelled. These are the means, and the charge column of the quark table, which are floats. The `min`/`max` ranges are modelled as Definitive.ColumnRange.
- ModelBuilder.TryDifferentAssignments: returns only the best state and error per particle. The prediction list of `predict_new_particles` beyond its state enumeration is left out, because it is mass arithmetic.

## Findings

| source | as written | input that shows it | evidently intended | confidence | as-written member | corrected member |
|---|---|---|---|---|---|---|
| golden_modular_analysis.py:225 | for negative n the table entry is `(-1) ** (m + 1) * fib_extended[10 + m][1]`, read from a list that is filled in index order starting at -10 | the script's range starts at n = -10, so m = 10 and entry 20 of the still empty list is read, raising IndexError on the first iteration | a 21-entry table for -10 .. 10 with F(-m) = (-1)^(m+1) F(m) | not executed | GoldenModular.ExtendedTableAsWritten | GoldenModular.ExtendedFibonacci |
