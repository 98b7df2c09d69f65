/** The multiple-eccentricity-qualifier (MEQ) mode of src/main.cpp: the
    argument guards that precede the sweep, and the sweep itself, which
    re-qualifies the catalogue at `steps + 1` evenly spaced thresholds and
    summarises the mass estimates of each step. The older root main.cpp runs
    the same loop. */
module MeqSweep {
  import opened Foreign
  import opened Settings
  import opened UtilVectors
  import opened SatelliteEntry
  import opened SatelliteDatabase

  /** `ecm_analysis_t`: the summary of one sweep step. */
  datatype ScenarioResult = ScenarioResult(
    qualifier: real,
    mean: real,
    median: real,
    precision: real,
    percentErrorMean: real,
    percentErrorMedian: real,
    satsDisqualified: int,
    percentPrecision: real)

  /** `abs(((value - LITERATURE_VALUE) / LITERATURE_VALUE) * 100)`. */
  function PercentError(value: real): (r: real)
    ensures r >= 0.0
    ensures r == 0.0 <==> value == LITERATURE_VALUE
  {
    var d := ((value - LITERATURE_VALUE) / LITERATURE_VALUE) * 100.0;
    if d < 0.0 then -d else d
  }

  /** The qualifier of step `i`: `min + stepSize * i` with
      `stepSize = (max - min) / steps`. Step 0 uses the minimum and step
      `steps` the maximum. */
  function Threshold(min: real, max: real, steps: int, i: int): (t: real)
    requires steps != 0
    ensures i == 0 ==> t == min
    ensures i == steps ==> t == max
  {
    min + ((max - min) / steps as real) * i as real
  }

  /** With `min <= max` the thresholds ascend with the step index. */
  lemma ThresholdsAscend(min: real, max: real, steps: int, i: int, j: int)
    requires steps > 0 && min <= max
    requires i <= j
    ensures Threshold(min, max, steps, i) <= Threshold(min, max, steps, j)
  {
    var step := (max - min) / steps as real;
    assert step * (j as real) - step * (i as real) == step * ((j - i) as real);
    assert step * ((j - i) as real) >= 0.0;
  }

  /** `r` is the summary of one step at threshold `t` whose admitted masses
      are `m` and whose disqualified count is `d`: the median is the element
      of rank `size / 2` and the deviation is the population form. */
  ghost predicate SummaryOf(r: ScenarioResult, m: seq<real>, t: real, d: int, num: Numerics)
  {
    && r.qualifier == t
    && |m| > 0
    && r.mean == VectorMean(m)
    && IsRankElement(m, |m| / 2, r.median)
    && r.precision == PopulationStdDev(m, num)
    && r.percentErrorMean == PercentError(r.mean)
    && r.percentErrorMedian == PercentError(r.median)
    && r.satsDisqualified == d
    && r.percentPrecision == num.divide(r.precision, r.mean) * 100.0
  }

  /** The summary of threshold `t` over a catalogue whose stored orbits are
      `s`: the masses are those of the entries passing `t` and the
      disqualified count is taken after the update. */
  ghost predicate Summarises(r: ScenarioResult, s: seq<EntryView>, t: real, num: Numerics)
  {
    SummaryOf(r, KeplerMassesAt(s, t, num), t, DisqualifiedCount(Requalify(s, t)), num)
  }

  /** The statistics half of the loop body: mean, median on a copy that
      `nth_element` reorders, deviation of the reordered copy, the percent
      errors against the literature value and the relative deviation. */
  method Summarise(masses: seq<real>, qualifier: real, disqualified: int, num: Numerics)
    returns (r: ScenarioResult)
    requires |masses| > 0
    ensures SummaryOf(r, masses, qualifier, disqualified, num)
  {
    var mean := VectorMean(masses);
    var buffer := new real[|masses|](k requires 0 <= k < |masses| => masses[k]);
    assert buffer[..] == masses;
    var median := VectorMedian(buffer);
    var precision := VectorStandardDeviation(buffer[..], num);
    StatisticsPermutation(masses, buffer[..], num);

    var percentErrorMean := PercentError(mean);
    var percentErrorMedian := PercentError(median);
    var percentStandardDeviation := num.divide(precision, mean) * 100.0;
    r := ScenarioResult(qualifier, mean, median, precision, percentErrorMean,
                        percentErrorMedian, disqualified, percentStandardDeviation);
  }

  /** The catalogue after `n` sweep steps from `s`: each step re-qualifies at
      its threshold and recomputes the admitted entries. Entries a step
      rejects keep the estimates of the last step that admitted them. */
  function AfterSteps(s: seq<EntryView>, min: real, max: real, steps: int, n: nat, num: Numerics): seq<EntryView>
    requires steps != 0
  {
    if n == 0 then s
    else Computed(Requalify(AfterSteps(s, min, max, steps, n - 1, num), Threshold(min, max, steps, n - 1)), num)
  }

  /** After `n > 0` steps every orbit is as loaded, each flag is the verdict
      of the last threshold and each admitted entry carries the estimates of
      its own orbit. */
  lemma {:induction false} AfterStepsState(s: seq<EntryView>, min: real, max: real, steps: int, n: nat, num: Numerics)
    requires steps != 0
    ensures SameOrbits(AfterSteps(s, min, max, steps, n, num), s)
    ensures n > 0 ==>
              forall j :: 0 <= j < |s| ==>
                var v := AfterSteps(s, min, max, steps, n, num)[j];
                && v.qualifying == Qualifies(s[j].orbit.eccentricity, Threshold(min, max, steps, n - 1))
                && (v.qualifying ==> v.derived == Kepler(s[j].orbit, num))
  {
    if n > 0 {
      AfterStepsState(s, min, max, steps, n - 1, num);
      RefreshKeepsOrbits(AfterSteps(s, min, max, steps, n - 1, num), Threshold(min, max, steps, n - 1), num);
    }
  }

  /** The state-changing half of one step: set the qualifier, re-qualify,
      recompute. */
  method Refresh(db: Database, qualifier: real, num: Numerics)
    requires db.Valid()
    modifies db, db.satellites
    ensures db.Valid() && db.satellites == old(db.satellites)
    ensures db.eccentricityQualifier == qualifier && db.qualifierAssigned
    ensures db.Snapshot() == Computed(Requalify(old(db.Snapshot()), qualifier), num)
  {
    db.SetEccentricityQualifier(qualifier);
    db.UpdateSatelliteQualification();
    db.ComputeKeplerStatistics(num);
  }

  /** One step of the loop: refresh at `qualifier`, read the masses and the
      disqualified count, summarise. */
  method RunStep(db: Database, qualifier: real, num: Numerics) returns (r: ScenarioResult)
    requires db.Valid()
    requires HasQualified(db.Snapshot(), qualifier)
    modifies db, db.satellites
    ensures db.Valid() && db.satellites == old(db.satellites)
    ensures db.eccentricityQualifier == qualifier && db.qualifierAssigned
    ensures db.Snapshot() == Computed(Requalify(old(db.Snapshot()), qualifier), num)
    ensures SameOrbits(db.Snapshot(), old(db.Snapshot()))
    ensures Summarises(r, old(db.Snapshot()), qualifier, num)
  {
    ghost var before := db.Snapshot();
    Refresh(db, qualifier, num);
    var massEstimations := db.GetMassEstimations();
    var disqualified := db.GetDisqualifiedSatelliteCount();
    MassesAfterRefresh(before, qualifier, num);
    DisqualifiedAt(before, qualifier, num);
    RefreshKeepsOrbits(before, qualifier, num);
    r := Summarise(massEstimations, qualifier, disqualified, num);
  }

  /** Result `j` summarises threshold `j` over the loaded catalogue `s0`. */
  ghost predicate SweepSummaries(results: seq<ScenarioResult>, s0: seq<EntryView>, meqMin: real, meqMax: real,
                                 meqSteps: int, num: Numerics)
    requires meqSteps != 0
  {
    forall j :: 0 <= j < |results| ==> Summarises(results[j], s0, Threshold(meqMin, meqMax, meqSteps, j), num)
  }

  /** Appending the summary of the next threshold keeps the sweep's results in step. */
  lemma SweepSummariesExtend(results: seq<ScenarioResult>, r: ScenarioResult, s0: seq<EntryView>,
                             meqMin: real, meqMax: real, meqSteps: int, num: Numerics)
    requires meqSteps != 0
    requires SweepSummaries(results, s0, meqMin, meqMax, meqSteps, num)
    requires Summarises(r, s0, Threshold(meqMin, meqMax, meqSteps, |results|), num)
    ensures SweepSummaries(results + [r], s0, meqMin, meqMax, meqSteps, num)
  {
    var extended := results + [r];
    forall j | 0 <= j < |extended|
      ensures Summarises(extended[j], s0, Threshold(meqMin, meqMax, meqSteps, j), num)
    {
      if j < |results| {
        assert extended[j] == results[j];
      }
    }
  }

  /** Step `i` of the sweep from the loaded catalogue `s0`: the summary is
      that of threshold `i` over `s0`, and the catalogue moves on one step. */
  method SweepStep(db: Database, ghost s0: seq<EntryView>, meqMin: real, meqMax: real, meqSteps: int, i: nat, num: Numerics)
    returns (r: ScenarioResult)
    requires db.Valid() && meqSteps != 0
    requires db.Snapshot() == AfterSteps(s0, meqMin, meqMax, meqSteps, i, num)
    requires HasQualified(s0, Threshold(meqMin, meqMax, meqSteps, i))
    modifies db, db.satellites
    ensures db.Valid() && db.satellites == old(db.satellites)
    ensures db.eccentricityQualifier == Threshold(meqMin, meqMax, meqSteps, i) && db.qualifierAssigned
    ensures db.Snapshot() == AfterSteps(s0, meqMin, meqMax, meqSteps, i + 1, num)
    ensures Summarises(r, s0, Threshold(meqMin, meqMax, meqSteps, i), num)
  {
    var qualifier := Threshold(meqMin, meqMax, meqSteps, i);
    AfterStepsState(s0, meqMin, meqMax, meqSteps, i, num);
    SameOrbitsAgree(db.Snapshot(), s0, qualifier, num);
    r := RunStep(db, qualifier, num);
  }

  /** The MEQ loop: for `i = 0 .. steps` inclusive it runs one step at
      `min + stepSize * i` and appends its result; every step is kept. An
      empty mass vector would make `vector_median` read past the end, so
      each step must admit some entry. */
  method RunSweep(db: Database, meqMin: real, meqMax: real, meqSteps: int, num: Numerics)
    returns (results: seq<ScenarioResult>)
    requires db.Valid()
    requires meqSteps != 0
    requires forall i :: 0 <= i <= meqSteps ==> HasQualified(db.Snapshot(), Threshold(meqMin, meqMax, meqSteps, i))
    modifies db, db.satellites
    ensures db.Valid() && db.satellites == old(db.satellites)
    ensures |results| == if meqSteps < 0 then 0 else meqSteps + 1
    ensures forall i :: 0 <= i < |results| ==>
              Summarises(results[i], old(db.Snapshot()), Threshold(meqMin, meqMax, meqSteps, i), num)
    ensures db.Snapshot() == AfterSteps(old(db.Snapshot()), meqMin, meqMax, meqSteps, |results|, num)
    ensures meqSteps >= 0 ==> db.eccentricityQualifier == meqMax && db.qualifierAssigned
    ensures meqSteps < 0 ==>
              db.eccentricityQualifier == old(db.eccentricityQualifier) && db.qualifierAssigned == old(db.qualifierAssigned)
  {
    ghost var s0 := db.Snapshot();
    results := [];
    var i := 0;
    while i <= meqSteps
      invariant 0 <= i && (meqSteps < 0 ==> i == 0) && (meqSteps >= 0 ==> i <= meqSteps + 1)
      invariant db.Valid() && db.satellites == old(db.satellites)
      invariant |results| == i
      invariant SweepSummaries(results, s0, meqMin, meqMax, meqSteps, num)
      invariant db.Snapshot() == AfterSteps(s0, meqMin, meqMax, meqSteps, i, num)
      invariant i > 0 ==> db.eccentricityQualifier == Threshold(meqMin, meqMax, meqSteps, i - 1) && db.qualifierAssigned
      invariant i == 0 ==>
                  db.eccentricityQualifier == old(db.eccentricityQualifier) && db.qualifierAssigned == old(db.qualifierAssigned)
    {
      var result := SweepStep(db, s0, meqMin, meqMax, meqSteps, i, num);
      SweepSummariesExtend(results, result, s0, meqMin, meqMax, meqSteps, num);
      results := results + [result];
      i := i + 1;
    }
  }

  // ---------------------------------------------------------------------------
  // Argument guards

  /** The value `--ecc` keeps when it is not given. */
  const ECC_SENTINEL: real := -1.0

  /** The run the guards let through. */
  datatype Mode = Meq(min: real, max: real, steps: int) | Single(eccentricityQualifier: real)

  /** The guards' reasons to `exit(1)`. */
  datatype GuardError = MeqArgumentParseFailed | EccentricityQualifierMissing

  datatype GuardOutcome = Proceed(mode: Mode) | Exit(error: GuardError)

  /** The checks of src/main.cpp before the database is loaded: in MEQ mode
      `--meq-min`, `--meq-max` and `--meq-steps` must parse (their default
      "NA" does not); otherwise `--ecc` must differ from its sentinel -1. */
  function CheckArguments(meq: bool, ecc: real, meqMin: string, meqMax: string, meqSteps: string,
                          stod: Parser, stoi: IntParser): (r: GuardOutcome)
    ensures r.Exit? <==>
              if meq then stod(meqMin).None? || stod(meqMax).None? || stoi(meqSteps).None?
              else ecc == ECC_SENTINEL
    ensures r.Proceed? && meq ==>
              r.mode == Meq(stod(meqMin).value, stod(meqMax).value, stoi(meqSteps).value)
    ensures r.Proceed? && !meq ==> r.mode == Single(ecc)
  {
    if meq then
      match (stod(meqMin), stod(meqMax), stoi(meqSteps))
      case (Some(lo), Some(hi), Some(n)) => Proceed(Meq(lo, hi, n))
      case _ => Exit(MeqArgumentParseFailed)
    else if ecc == ECC_SENTINEL then Exit(EccentricityQualifierMissing)
    else Proceed(Single(ecc))
  }
}
