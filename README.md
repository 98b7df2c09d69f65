# Satellite catalogue analyser: record qualification and selection

This project models the core of `cpp_satellite_analyzer`, which estimates the
mass of the Earth from the orbits in the UCS satellite catalogue, and proves
properties of that model. The core has six parts:

- **Record normalisation.** The `UCSSatelliteEntry` constructor rejects a row
  with an empty field. It then strips quotes and thousands separators from the
  seven numeric fields, parses them, converts kilometres to metres and minutes
  to seconds, and runs a load-time eccentricity check. The entry is a class
  (`SatelliteEntry.Entry`) whose fields are assigned one by one.
- **Re-qualification.** `update_satellite_qualification(t)` recomputes only the
  qualification flag. A threshold of 0 asks for an eccentricity of exactly 0.
- **The catalogue.** `UCSSatelliteDatabase` (`SatelliteDatabase.Database`) holds
  an ordered vector of entries and a threshold. It can load rows, set the
  threshold, re-qualify every entry, recompute estimates for the qualified
  entries, list their masses and count the disqualified ones.
- **String and vector helpers.** `strstripchar` and `strprestod` work in place on a
  character buffer. `vector_median` is an in-place `nth_element` on an array.
  The standard deviation accumulates a sum in a loop.
- **The threshold sweep.** The multiple-eccentricity-qualifier (MEQ) mode checks
  its arguments, then runs steps `0..n` inclusive. Each step re-qualifies the
  catalogue and summarises the masses of the admitted entries.
- **The preprocessor's filters.** Phase 1 keeps the lines whose tab count
  matches the header. Phase 2 recomputes each record's eccentricity and drops
  the records where that fails.

Modelling choices:

- Doubles are `real`s.
- The Kepler formulas, the square root and the IEEE division in the relative
  deviation are fields of a `Foreign.Numerics` value passed as a parameter.
  The model does not interpret them.
- `std::stod`, `std::stoi` and Python's `float()` are partial parse functions
  (`string -> Option<...>`) passed as parameters.
- Scalar fields the C++ constructor leaves unassigned are also left unassigned
  in the Dafny constructor. Their values are therefore arbitrary, like
  indeterminate memory. The orbit class is a `std::string`, so on the
  missing-field path it is the empty string. The ghost field `initialised`
  records which fields the constructor did set.
- Each entry has an abstract value (`EntryView`), and the catalogue has one too
  (`Snapshot()`). Specification functions over these abstract values
  (`Requalify`, `Computed`, `QualifiedMasses`, `DisqualifiedCount`,
  `KeplerMassesAt`) state what the catalogue methods do.

The code's behaviour is reproduced as written:

- the sweep keeps every step, even when two steps disqualify the same number
  of entries, in src/main.cpp and in the older main.cpp loop, which has the
  same shape (`RunSweep`);
- a row rejected for a missing field is re-judged by the next
  re-qualification, which ignores the reason code
  (`MissingFieldEntryCanRequalify`);
- a failed parse leaves the entry qualified;
- `vector_median` returns the element of rank `size / 2`, so for an
  even-length vector it is the upper middle element
  (`MedianOfFourIsUpperMiddle`);
- the exact-match rule at 0 exists only in re-qualification;
- the catalogue's threshold is unset until `set_eccentricity_qualifier` runs.

## Model

| member | source | states |
|---|---|---|
| SatelliteEntry.StrippedNumbers | src/UCSSatelliteEntry.cpp:38-44 | the seven numeric fields after stripping, none of which contains a quote or a comma |
| SatelliteEntry.ParsePrefix | src/UCSSatelliteEntry.cpp:49-58 | the values the `stod` calls produce before the first one that throws: each agrees with the parser on its field, and the field after the last one fails to parse |
| SatelliteEntry.Entry.constructor | src/UCSSatelliteEntry.cpp:18-72 | empty field: not qualified, reason -1, orbit class empty, nothing else set. Otherwise: orbit class and row id copied; numeric fields set up to the first failed parse, with perigee and apogee ×1000 and period ×60; when all seven parse, qualified iff eccentricity ≤ the load-time qualifier, else reason -2; after a failed parse it stays qualified with no reason. The derived values, secondary mass and velocity start at 0 |
| SatelliteEntry.Entry.UpdateSatelliteQualification | src/UCSSatelliteEntry.h:47 | the flag becomes `eccentricity <= t` for t ≠ 0 and `eccentricity == 0` for t = 0; no other field changes (the frame is the flag alone) |
| SatelliteEntry.Entry.ComputeKeplerStatistics | src/UCSSatelliteEntry.cpp:107-120 | writes the three derived values from the stored perigee, apogee and period, and nothing else; it does not look at the flag |
| SatelliteEntry.GettersReadView | src/UCSSatelliteEntry.h:42-46 | `isQualified`, the Kepler getters and `getSecondaryMass` return the stored flag, derived values and secondary mass; as functions they change nothing |
| SatelliteEntry.RequalifyOneIdempotent | src/UCSSatelliteEntry.h:47 | re-qualifying twice with one threshold equals re-qualifying once |
| SatelliteEntry.QualifiesMonotone | src/UCSSatelliteEntry.h:47 | for 0 < t1 ≤ t2, an entry admitted at t1 is admitted at t2 |
| SatelliteEntry.QualifiesZeroThenPositive | src/UCSSatelliteEntry.h:47 | an entry admitted at threshold 0 is admitted at every positive threshold |
| SatelliteEntry.ZeroRuleDiffersFromLoadTimeCheck | src/UCSSatelliteEntry.cpp:62 | the load-time test has no zero case: at qualifier 0, eccentricity -0.5 passes it but fails re-qualification; for non-negative eccentricities the two agree |
| SatelliteEntry.MissingFieldEntryCanRequalify | UCSSatelliteEntry.h:40 | an entry rejected for a missing field is admitted once its eccentricity passes, and it keeps reason -1 |
| SatelliteDatabase.Database.constructor | UCSSatelliteDatabase.cpp:19-59 | one fresh entry per row, in read order, normalised from the candidate with row id i+1 and the load-time qualifier; the catalogue threshold is left unassigned |
| SatelliteDatabase.CandidateFor | UCSSatelliteDatabase.cpp:38-40 | the candidate for a row carries the running count as row id, the orbit class and the seven numeric columns in read order, and the catalogue's load-time qualifier |
| SatelliteDatabase.Database.LoadRows | UCSSatelliteDatabase.cpp:27-49 | the read loop appends exactly one entry per row with ids 1, 2, 3, …, and its `disqualified_satellites` counter equals the number of appended entries that are not qualified |
| SatelliteDatabase.Database.AppendEntry | UCSSatelliteDatabase.cpp:38-49 | one loop iteration: the earlier entries are untouched, the new entry is last, and the disqualified count grows by one exactly when it is not qualified |
| SatelliteDatabase.Database.SetEccentricityQualifier | UCSSatelliteDatabase.h:28 | stores exactly the given threshold and leaves every entry as it was |
| SatelliteDatabase.Database.UpdateSatelliteQualification | UCSSatelliteDatabase.cpp:117-122 | needs a prior `set_eccentricity_qualifier`; every entry is re-qualified with the catalogue threshold, and length and order are unchanged |
| SatelliteDatabase.Database.ComputeKeplerStatistics | UCSSatelliteDatabase.cpp:67-87 | qualified entries get fresh derived values and disqualified entries keep their old ones |
| SatelliteDatabase.Database.GetMassEstimations | UCSSatelliteDatabase.cpp:128-141 | the Kepler masses of exactly the qualified entries, in vector order; its length is the size minus the disqualified count |
| SatelliteDatabase.Database.GetDisqualifiedSatelliteCount | UCSSatelliteDatabase.cpp:143-153 | the number of entries whose flag is false, and together with the mass list it accounts for every entry; it changes nothing |
| SatelliteDatabase.MassesAndDisqualifiedPartition | UCSSatelliteDatabase.cpp:128-153 | the mass list and the disqualified count partition the vector |
| SatelliteDatabase.RequalifyIdempotent | UCSSatelliteDatabase.cpp:117-122 | catalogue-level re-qualification with an unchanged threshold changes nothing the second time |
| SatelliteDatabase.MassesAfterRefresh | UCSSatelliteDatabase.cpp:74-84 | after re-qualifying at t and recomputing, the mass list is the Kepler mass of each entry whose eccentricity passes t, in order |
| SatelliteDatabase.DisqualifiedAt | UCSSatelliteDatabase.cpp:143-153 | recomputing does not change the disqualified count; count plus admitted masses equals the size; some admitted entry means a non-empty mass list |
| SatelliteDatabase.RefreshKeepsOrbits | UCSSatelliteDatabase.cpp:117-122 | re-qualifying and recomputing leave every stored orbit as it was |
| SatelliteDatabase.SameOrbitsAgree | src/main.cpp:178-186 | what a threshold selects depends only on the stored orbits, not on flags or estimates left by earlier steps |
| UtilStrings.Without | src/Util.cpp:24-27 | the result is no longer than the input and holds only characters of the input other than the removed one |
| UtilStrings.WithoutConcat | src/Util.cpp:26 | removal distributes over concatenation, so the kept characters keep their relative order |
| UtilStrings.WithoutCounts | src/Util.cpp:26 | the result has no occurrence of the removed character and every other character as often as the input |
| UtilStrings.WithoutAbsent | src/Util.cpp:26 | a string without the character is unchanged |
| UtilStrings.RemoveChar | src/Util.cpp:24-27 | erase-remove on a buffer: the kept prefix is the input filtered by ≠ c |
| UtilStrings.StripChar | src/Util.cpp:24-27 | `strstripchar` yields the input filtered by ≠ c |
| UtilStrings.Strprestod | src/Util.cpp:35-39 | the result has neither `"` nor `,` and is the input with both removed |
| UtilStrings.PrestodNoop | src/Util.cpp:35-39 | a string without `"` or `,` is left unchanged |
| UtilStrings.PrestodIdempotent | src/Util.cpp:35-39 | stripping twice equals stripping once |
| UtilStrings.PrestodExample | src/Util.cpp:29-31 | `39,112.3` becomes `39112.3` |
| UtilVectors.AccumulateConcat | src/Util.cpp:73 | the accumulated sum splits over concatenation |
| UtilVectors.VectorMean | src/Util.cpp:71-74 | non-empty input; the mean times the size is the sum, and the mean of one value is that value |
| UtilVectors.AccumulatePermutation | src/Util.cpp:73 | sums (plain or of squared deviations) do not depend on element order |
| UtilVectors.SumBounds | src/Util.cpp:73 | a sum of n values in [lo, hi] lies in [n·lo, n·hi] |
| UtilVectors.MeanWithinRange | src/Util.cpp:71-74 | the mean of a non-empty vector lies between any bounds of its elements |
| UtilVectors.SquaredDeviationsNonNegative | src/Util.cpp:94-95 | the accumulated squared deviations are non-negative |
| UtilVectors.StatisticsPermutation | src/Util.cpp:71-98 | reordering a vector (as `nth_element` does) changes neither its mean nor its population standard deviation |
| UtilVectors.VectorStandardDeviation | src/Util.cpp:89-98 | non-empty input; the result is the square root of the mean squared deviation from the mean (population form) |
| UtilVectors.CountBelow | src/Util.cpp:82 | (the rank measure) the number of elements below a value is at most the length |
| UtilVectors.CountBelowConcat | src/Util.cpp:82 | counts below a value split over concatenation |
| UtilVectors.CountBelowAll | src/Util.cpp:82 | if every element is below a value, the count is the length |
| UtilVectors.CountBelowNone | src/Util.cpp:82 | if no element is below a value, the count is 0 |
| UtilVectors.CountBelowPermutation | src/Util.cpp:82 | counts below a value do not depend on element order |
| UtilVectors.PartitionRank | src/Util.cpp:82-83 | a vector partitioned around index k holds at k an element of rank k |
| UtilVectors.RankIsSortedIndex | src/Util.cpp:79-84 | an element of rank k is the k-th element of the sorted vector |
| UtilVectors.MedianOfFourIsUpperMiddle | src/Util.cpp:81-83 | for `[1,2,3,4]` the element of rank 4/2 is 3, the upper middle |
| UtilVectors.IndexOfMin | src/Util.cpp:82 | the index of a least element of the unsorted tail |
| UtilVectors.Swap | src/Util.cpp:82 | exchanges two cells and keeps the multiset |
| UtilVectors.NthElement | src/Util.cpp:82 | `nth_element`: a permutation of the input with every element before k ≤ the element at k ≤ every element after it |
| UtilVectors.VectorMedian | src/Util.cpp:79-84 | non-empty input; the vector is permuted and partitioned around size/2, and the result is the element at size/2, of rank size/2 in the input |
| MeqSweep.PercentError | src/main.cpp:192-193 | the percent error is non-negative and zero exactly at the literature value |
| MeqSweep.Threshold | src/main.cpp:178 | the qualifier of step i, `min + ((max - min) / steps) · i` with the step size of src/main.cpp:126; step 0 gives the minimum and step `steps` the maximum |
| MeqSweep.ThresholdsAscend | src/main.cpp:178 | with min ≤ max the thresholds ascend with the step index |
| MeqSweep.Summarise | src/main.cpp:188-199 | mean, median of rank size/2, population deviation of the reordered copy, percent errors and relative deviation of one step |
| MeqSweep.Refresh | main.cpp:102-106 | set, re-qualify, recompute, in that order (the same in the older loop and in src/main.cpp:178-183): the catalogue threshold is the step's qualifier and the catalogue becomes the re-qualified and recomputed one |
| MeqSweep.RunStep | src/main.cpp:176-200 | one step: the threshold is the step's qualifier, the catalogue is re-qualified and recomputed at it, and the result summarises the entries admitted there, with the disqualified count read after the update |
| MeqSweep.AfterStepsState | src/main.cpp:174-186 | after n > 0 steps every orbit is as loaded, each flag is the verdict of the last threshold, and each admitted entry carries the estimates of its own orbit |
| MeqSweep.SweepSummariesExtend | src/main.cpp:202 | appending the next step's summary keeps result j tied to threshold j |
| MeqSweep.SweepStep | src/main.cpp:176-202 | step i from the loaded catalogue: the summary is that of threshold i over the loaded orbits, and the catalogue moves from the state of i steps to that of i+1 |
| MeqSweep.RunSweep | src/main.cpp:174-203 | steps 0..n inclusive: exactly n+1 results, in order, none dropped; result i has qualifier `min + (max-min)/n·i`, and its statistics and disqualified count are those of that threshold; the catalogue ends in the state the n+1 steps leave and its threshold is the maximum; every step needs an admitted entry |
| MeqSweep.CheckArguments | src/main.cpp:117-139 | MEQ mode exits iff min, max or steps fails to parse; otherwise it exits iff `--ecc` is still the sentinel -1 |
| Preprocess.Kept | preprocess.py:39-45 | kept lines are input lines whose tab count is the header's (the converse is `LineFate`) |
| Preprocess.DroppedLines | preprocess.py:39-45 | each reported 1-based line number names a line whose tab count differs from the header's |
| Preprocess.KeptConcat | preprocess.py:39-45 | phase 1 keeps lines in input order |
| Preprocess.KeptAndDroppedPartition | preprocess.py:39-45 | the kept and reported counts add up to the number of lines after the header |
| Preprocess.LineFate | preprocess.py:41-44 | a line after the header is kept iff its tab count is the header's and reported iff it is not, so it lands in exactly one of the two |
| Preprocess.KeptAllWhenConsistent | preprocess.py:37-45 | when every line has the header's tab count, nothing is dropped |
| Preprocess.Phase1 | preprocess.py:28-45 | the header is written first and unchanged, then the lines with its tab count; the others are reported with 1-based numbers; an empty file has no header |
| Preprocess.Field | preprocess.py:63-66 | a field parses only if the column is present and holds text that parses once its commas are removed |
| Preprocess.Recalculated | preprocess.py:62-75 | a record is kept iff period, perigee, apogee and eccentricity parse and apogee + perigee ≠ 0; the kept record has the same keys, differs only in `Eccentricity`, and that is (apogee - perigee)/(apogee + perigee) |
| Preprocess.RecalculatedEccentricityBounded | preprocess.py:68 | for non-negative altitudes the new eccentricity lies in [-1, 1], and is non-negative iff apogee ≥ perigee |
| Preprocess.KeptRows | preprocess.py:60-72 | every kept record has a numeric `Eccentricity`, and there are at most as many as were read (where they come from is `KeptRowsSound`) |
| Preprocess.KeptRowsConcat | preprocess.py:60-72 | phase 2 keeps records in input order |
| Preprocess.KeptRowsComplete | preprocess.py:60-72 | every record whose recalculation succeeds is in the output |
| Preprocess.KeptRowsSound | preprocess.py:60-72 | every record phase 2 writes is the recalculation of a record it read |
| Preprocess.Phase2 | preprocess.py:56-77 | the output is the recalculated records in order, and `corrupted_entries` + kept = records read |

## Left out

- Reading the catalogue file with `io::CSVReader` is not modelled: it is a foreign header-only library. The constructor takes the rows it would yield as a sequence of eight-string rows.
- All file output is not modelled because it is I/O. This covers `dump_kepler_data_to_csv`, the MEQ CSV writers and the preprocessor's temporary and output files.
- Command-line parsing, logging, console prompts and timing are not modelled. Only the guards that precede the sweep are kept.
- `std::stod`, `std::stoi` and Python `float()` are abstract partial parsers, including their prefix acceptance. An `out_of_range` error is not caught by the C++ code and ends the program; the model does not distinguish it from `invalid_argument`.
- Floating point is modelled as exact reals: rounding, NaN and infinities are not represented. The Kepler formulas (`pow`, `acos`), `sqrt` and the IEEE division in the relative deviation are uninterpreted.
- The percent errors and the recomputed eccentricity are written as exact real arithmetic.
- Display helpers (`whoami`, `num_to_rounded_str`, `print_tabular`) are left out because they only format output.
- `estimate_orbital_velocity` and `estimate_earth_mass_method_2` are declared without bodies, so there is nothing to model. The fields they would set, `secondary_mass` and the satellite velocity, have the initialiser 0 (src/UCSSatelliteEntry.h:31-32). `Entry` keeps them at that value, and `GetSecondaryMass` reads it.
- The visualisation script is not part of this model.
- The root UCSSatelliteEntry.h is modelled through the same members as src/UCSSatelliteEntry.h, since its update rule and getters are identical. The catalogue is modelled from the root UCSSatelliteDatabase.h and UCSSatelliteDatabase.cpp. The `get_satellite_count()` that src/main.cpp calls in a log line is not declared there, so it is not part of this model.
- The constructor takes the candidate by reference and strips its strings in place. Only the diagnostic output in the `catch` block reads the stripped strings afterwards, so the candidate is a value here.
- `int` counters and the loop index are unbounded integers. A 32-bit overflow would need more than two billion rows or steps.
- MeqSweep.RunSweep: requires a non-zero step count and at least one admitted entry at every step. The code has no guard for either. With an empty mass vector, `vector_median` reads past the end. With zero steps, the step size is not finite, so no entry is admitted.
- MeqSweep.RunSweep: the single-qualifier (non-MEQ) run after the guards is not modelled separately. It is one `Database.ComputeKeplerStatistics` on the catalogue as loaded, followed by file output. The qualifier is never assigned and the entries are not re-qualified, so the load-time check decides which entries are computed. That check has no exact-zero rule and leaves an entry with a failed parse qualified.
- MeqSweep.CheckArguments: the older main.cpp parses its sweep bounds from console prompts without a guard, so only the guards of src/main.cpp are modelled.
- Preprocess.Phase1: text decoding that drops undecodable bytes happens before this model. The lines are taken as given, with their line terminators.
- Preprocess.Phase2: CSV parsing of the phase-1 file into records is not modelled. Records come in as maps from column name to text. The dictionary reader gives a column missing from a short line the value `None`, and the model leaves that key out. The effect on the four parsed columns is the same, because both make the record corrupt. A kept record's key set can differ from the reader's when some other column is missing.
- Preprocess.Phase2: the reported index of each corrupt record is console output and is left out. Only the count is modelled.
- MeqSweep.PercentError: the percent errors call `abs` unqualified on a double. The model assumes the floating-point overload is chosen. With a standard library that exposes only `int abs(int)` at global scope, the value would be truncated to an integer, and "zero exactly at the literature value" would not hold.
