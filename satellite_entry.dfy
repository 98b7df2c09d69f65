/** One catalogue record, `UCSSatelliteEntry` (src/UCSSatelliteEntry.cpp and
    src/UCSSatelliteEntry.h; the older root UCSSatelliteEntry.h is the same
    class without the secondary-mass and velocity fields). */
module SatelliteEntry {
  import opened Foreign
  import opened Settings
  import opened UtilStrings

  /** `candidate_satellite_t`: one raw row plus the load-time qualifier. */
  datatype Candidate = Candidate(
    rowId: int,
    orbitClass: string,
    longitude: string,
    perigee: string,
    apogee: string,
    eccentricity: string,
    inclination: string,
    period: string,
    launchMass: string,
    eccentricityQualifier: real)

  /** The fields of an entry that its constructor may or may not assign.
      The Kepler fields have initialisers and are always set; the orbit class
      is a `std::string`, so it is at least default-constructed (empty). */
  datatype Field =
    | Qualifying | Reason | OrbitClass | RowId
    | Longitude | Perigee | Apogee | Eccentricity | Inclination | Period | LaunchMass

  /** The seven numeric fields, in the order the constructor parses them. */
  const NumericFields: seq<Field> :=
    [Longitude, Perigee, Apogee, Eccentricity, Inclination, Period, LaunchMass]

  /** The stored orbital parameters, in SI units. */
  datatype Orbit = Orbit(
    longitude: real, perigee: real, apogee: real, eccentricity: real,
    inclination: real, period: real, launchMass: real)

  /** The values `compute_kepler_statistics` derives. */
  datatype Derived = Derived(keplerX: real, keplerY: real, keplerMass: real)

  /** The abstract value of an entry object: every field, including the
      secondary-mass and velocity estimates that no modelled operation writes. */
  datatype EntryView = EntryView(
    qualifying: bool, reason: int, orbitClass: string, rowId: int,
    orbit: Orbit, derived: Derived, secondaryMass: real, satelliteVelocity: real)

  /** True iff one of the eight raw fields is the empty string. */
  predicate AnyMissing(sat: Candidate)
  {
    sat.orbitClass == [] || sat.longitude == [] || sat.perigee == [] || sat.apogee == []
    || sat.eccentricity == [] || sat.inclination == [] || sat.period == [] || sat.launchMass == []
  }

  /** The seven numeric fields as `strprestod` leaves them. */
  function StrippedNumbers(sat: Candidate): (r: seq<string>)
    ensures |r| == |NumericFields|
    ensures forall i :: 0 <= i < |r| ==> QUOTE !in r[i] && COMMA !in r[i]
  {
    [Prestod(sat.longitude), Prestod(sat.perigee), Prestod(sat.apogee), Prestod(sat.eccentricity),
     Prestod(sat.inclination), Prestod(sat.period), Prestod(sat.launchMass)]
  }

  /** The values the `std::stod` calls of the `try` block produce before the
      first one that throws: parsing stops at the first failure. */
  function ParsePrefix(fields: seq<string>, stod: Parser): (r: seq<real>)
    ensures |r| <= |fields|
    ensures forall i :: 0 <= i < |r| ==> stod(fields[i]) == Some(r[i])
    ensures |r| < |fields| ==> stod(fields[|r|]).None?
  {
    if |fields| == 0 then []
    else match stod(fields[0])
      case None => []
      case Some(x) => [x] + ParsePrefix(fields[1..], stod)
  }

  /** `update_satellite_qualification`'s rule: a threshold of 0 asks for an
      eccentricity of exactly 0, any other threshold is an upper bound. */
  predicate Qualifies(eccentricity: real, threshold: real)
  {
    if threshold != 0.0 then eccentricity <= threshold else eccentricity == 0.0
  }

  /** The entry after `update_satellite_qualification(threshold)`. */
  function RequalifyOne(v: EntryView, threshold: real): EntryView
  {
    v.(qualifying := Qualifies(v.orbit.eccentricity, threshold))
  }

  /** The entry after `compute_kepler_statistics`. */
  function ComputeOne(v: EntryView, num: Numerics): EntryView
  {
    v.(derived := Kepler(v.orbit, num))
  }

  function Kepler(o: Orbit, num: Numerics): Derived
  {
    Derived(num.keplerX(o.perigee, o.apogee), num.keplerY(o.period),
            num.keplerMass(o.perigee, o.apogee, o.period))
  }

  class Entry {
    var qualifying: bool
    var disqualificationReason: int
    var orbitClass: string
    var rowId: int
    var longitude: real
    var perigee: real
    var apogee: real
    var eccentricity: real
    var inclination: real
    var period: real
    var launchMass: real
    var keplerX: real
    var keplerY: real
    var keplerMass: real
    var secondaryMass: real
    var satelliteVelocity: real
    /** The fields the constructor initialised; the others hold indeterminate values. */
    ghost var initialised: set<Field>

    ghost function View(): EntryView
      reads this
    {
      EntryView(qualifying, disqualificationReason, orbitClass, rowId,
                Orbit(longitude, perigee, apogee, eccentricity, inclination, period, launchMass),
                Derived(keplerX, keplerY, keplerMass), secondaryMass, satelliteVelocity)
    }

    /** What the constructor establishes from `sat`: an entry with an empty
        field is disqualified with the missing-parameter reason, its orbit
        class is the empty string (`std::string` default construction) and
        no other field is set; otherwise the row id and orbit class are copied, the
        numeric fields are set up to the first failed parse (perigee and
        apogee in metres, the period in seconds), and the load-time check
        `eccentricity > qualifier` runs only when all seven parsed. */
    ghost predicate NormalizedFrom(sat: Candidate, stod: Parser)
      reads this
    {
      var parsed := ParsePrefix(StrippedNumbers(sat), stod);
      var complete := |parsed| == |NumericFields|;
      var tooEccentric := complete && parsed[3] > sat.eccentricityQualifier;
      && keplerX == 0.0 && keplerY == 0.0 && keplerMass == 0.0
      && secondaryMass == 0.0 && satelliteVelocity == 0.0
      && (AnyMissing(sat) ==>
            && !qualifying
            && disqualificationReason == DISQ_REASON_MISSING_PARAMETER
            && orbitClass == ""
            && initialised == {Qualifying, Reason, OrbitClass})
      && (!AnyMissing(sat) ==>
            && orbitClass == sat.orbitClass
            && rowId == sat.rowId
            && initialised == {Qualifying, OrbitClass, RowId}
                           + (set i | 0 <= i < |parsed| :: NumericFields[i])
                           + (if tooEccentric then {Reason} else {})
            && (|parsed| > 0 ==> longitude == parsed[0])
            && (|parsed| > 1 ==> perigee == parsed[1] * 1000.0)
            && (|parsed| > 2 ==> apogee == parsed[2] * 1000.0)
            && (|parsed| > 3 ==> eccentricity == parsed[3])
            && (|parsed| > 4 ==> inclination == parsed[4])
            && (|parsed| > 5 ==> period == parsed[5] * 60.0)
            && (|parsed| > 6 ==> launchMass == parsed[6])
            && qualifying == !tooEccentric
            && (tooEccentric ==> disqualificationReason == DISQ_REASON_ECCENTRICITY))
    }

    /** `UCSSatelliteEntry(candidate_satellite_t&)`. */
    constructor (sat: Candidate, stod: Parser)
      ensures NormalizedFrom(sat, stod)
    {
      keplerX, keplerY, keplerMass, secondaryMass, satelliteVelocity := 0.0, 0.0, 0.0, 0.0, 0.0;
      var complete := !AnyMissing(sat);
      qualifying := complete;
      orbitClass := "";
      if !complete {
        disqualificationReason := DISQ_REASON_MISSING_PARAMETER;
        initialised := {Qualifying, Reason, OrbitClass};
      } else {
        var lon := Strprestod(sat.longitude);
        var per := Strprestod(sat.perigee);
        var apo := Strprestod(sat.apogee);
        var ecc := Strprestod(sat.eccentricity);
        var inc := Strprestod(sat.inclination);
        var prd := Strprestod(sat.period);
        var mass := Strprestod(sat.launchMass);
        orbitClass := sat.orbitClass;
        rowId := sat.rowId;
        var fields := [lon, per, apo, ecc, inc, prd, mass];
        assert fields == StrippedNumbers(sat);
        // the try block: each assignment happens only if every parse before it succeeded
        var parsed := ParsePrefix(fields, stod);
        if |parsed| > 0 { longitude := parsed[0]; }
        if |parsed| > 1 { perigee := parsed[1] * 1000.0; }
        if |parsed| > 2 { apogee := parsed[2] * 1000.0; }
        if |parsed| > 3 { eccentricity := parsed[3]; }
        if |parsed| > 4 { inclination := parsed[4]; }
        if |parsed| > 5 { period := parsed[5] * 60.0; }
        if |parsed| > 6 { launchMass := parsed[6]; }
        ghost var reasonSet: set<Field> := {};
        if |parsed| == 7 && parsed[3] > sat.eccentricityQualifier {
          disqualificationReason := DISQ_REASON_ECCENTRICITY;
          qualifying := false;
          reasonSet := {Reason};
        }
        initialised := {Qualifying, OrbitClass, RowId} + (set i | 0 <= i < |parsed| :: NumericFields[i]) + reasonSet;
      }
    }

    /** `update_satellite_qualification(new_eccentricity_qualifier)`: writes the
        flag and nothing else, whatever the reason code says. */
    method UpdateSatelliteQualification(newEccentricityQualifier: real)
      modifies this`qualifying
      ensures qualifying == Qualifies(eccentricity, newEccentricityQualifier)
      ensures View() == RequalifyOne(old(View()), newEccentricityQualifier)
    {
      if newEccentricityQualifier != 0.0 {
        qualifying := eccentricity <= newEccentricityQualifier;
      } else {
        qualifying := eccentricity == 0.0;
      }
    }

    /** `compute_kepler_statistics`: overwrites the three derived fields from
        the stored orbit; it does not look at the qualification flag. */
    method ComputeKeplerStatistics(num: Numerics)
      modifies this`keplerX, this`keplerY, this`keplerMass
      ensures keplerX == num.keplerX(perigee, apogee)
      ensures keplerY == num.keplerY(period)
      ensures keplerMass == num.keplerMass(perigee, apogee, period)
      ensures View() == ComputeOne(old(View()), num)
    {
      keplerY := num.keplerY(period);
      keplerX := num.keplerX(perigee, apogee);
      keplerMass := num.keplerMass(perigee, apogee, period);
    }

    function IsQualified(): bool
      reads this
    {
      qualifying
    }

    function GetKeplerX(): real
      reads this
    {
      keplerX
    }

    function GetKeplerY(): real
      reads this
    {
      keplerY
    }

    function GetKeplerMass(): real
      reads this
    {
      keplerMass
    }

    function GetSecondaryMass(): real
      reads this
    {
      secondaryMass
    }
  }

  /** The getters return the stored flag, Kepler values and secondary mass of
      the entry's abstract value; being functions, they change nothing. */
  lemma GettersReadView(e: Entry)
    ensures e.IsQualified() == e.View().qualifying
    ensures e.GetKeplerX() == e.View().derived.keplerX
    ensures e.GetKeplerY() == e.View().derived.keplerY
    ensures e.GetKeplerMass() == e.View().derived.keplerMass
    ensures e.GetSecondaryMass() == e.View().secondaryMass
  {
  }

  /** Re-qualifying twice with one threshold is re-qualifying once. */
  lemma RequalifyOneIdempotent(v: EntryView, t: real)
    ensures RequalifyOne(RequalifyOne(v, t), t) == RequalifyOne(v, t)
  {
  }

  /** For positive thresholds a larger threshold keeps every entry a smaller one admits. */
  lemma QualifiesMonotone(e: real, t1: real, t2: real)
    requires 0.0 < t1 <= t2
    requires Qualifies(e, t1)
    ensures Qualifies(e, t2)
  {
  }

  /** What threshold 0 admits, every positive threshold admits. */
  lemma QualifiesZeroThenPositive(e: real, t: real)
    requires Qualifies(e, 0.0) && t > 0.0
    ensures Qualifies(e, t)
  {
  }

  /** The exact-match rule at 0 and the load-time test `!(e > 0)` differ only
      on negative eccentricities: -0.5 passes the load-time check with
      qualifier 0 but fails re-qualification at 0. */
  lemma ZeroRuleDiffersFromLoadTimeCheck()
    ensures !(-0.5 > 0.0) && !Qualifies(-0.5, 0.0)
    ensures forall e :: e >= 0.0 ==> (Qualifies(e, 0.0) <==> !(e > 0.0))
  {
  }

  /** The reason code does not protect an entry: one rejected for a missing
      field is re-admitted once its (indeterminate) eccentricity passes. */
  lemma MissingFieldEntryCanRequalify(v: EntryView, t: real)
    requires v.reason == DISQ_REASON_MISSING_PARAMETER && !v.qualifying
    requires t != 0.0 && v.orbit.eccentricity <= t
    ensures RequalifyOne(v, t).qualifying
    ensures RequalifyOne(v, t).reason == DISQ_REASON_MISSING_PARAMETER
  {
  }
}
