/** The catalogue, `UCSSatelliteDatabase` (UCSSatelliteDatabase.cpp and
    UCSSatelliteDatabase.h): an ordered vector of entries plus the current
    eccentricity qualifier. */
module SatelliteDatabase {
  import opened Foreign
  import opened SatelliteEntry

  /** One row as the CSV reader delivers it: the eight selected columns. */
  datatype RawRow = RawRow(
    orbitClass: string, longitude: string, perigee: string, apogee: string,
    eccentricity: string, inclination: string, period: string, launchMass: string)

  /** The candidate the load loop builds for a row: the running count as row
      id, the eight columns in the order the reader delivers them, and the
      catalogue's load-time qualifier. */
  function CandidateFor(row: RawRow, rowId: int, qualifier: real): (c: Candidate)
    ensures c.rowId == rowId && c.eccentricityQualifier == qualifier
    ensures c.orbitClass == row.orbitClass
    ensures [c.longitude, c.perigee, c.apogee, c.eccentricity, c.inclination, c.period, c.launchMass]
         == [row.longitude, row.perigee, row.apogee, row.eccentricity, row.inclination, row.period, row.launchMass]
  {
    Candidate(rowId, row.orbitClass, row.longitude, row.perigee, row.apogee,
              row.eccentricity, row.inclination, row.period, row.launchMass, qualifier)
  }

  /** The abstract values of a vector of entries. */
  ghost function Views(es: seq<Entry>): (s: seq<EntryView>)
    reads es
  {
    seq(|es|, i reads es requires 0 <= i < |es| => es[i].View())
  }

  // ---------------------------------------------------------------------------
  // The catalogue operations on abstract values

  /** Every entry re-judged against `t`. */
  function Requalify(s: seq<EntryView>, t: real): seq<EntryView>
  {
    seq(|s|, i requires 0 <= i < |s| => RequalifyOne(s[i], t))
  }

  /** Kepler statistics recomputed for the qualified entries only. */
  function Computed(s: seq<EntryView>, num: Numerics): seq<EntryView>
  {
    seq(|s|, i requires 0 <= i < |s| => if s[i].qualifying then ComputeOne(s[i], num) else s[i])
  }

  /** The Kepler mass of every qualified entry, in vector order. */
  function QualifiedMasses(s: seq<EntryView>): seq<real>
  {
    if |s| == 0 then []
    else QualifiedMasses(s[..|s| - 1])
         + (if s[|s| - 1].qualifying then [s[|s| - 1].derived.keplerMass] else [])
  }

  /** The number of entries that are not qualified. */
  function DisqualifiedCount(s: seq<EntryView>): nat
  {
    if |s| == 0 then 0
    else DisqualifiedCount(s[..|s| - 1]) + (if s[|s| - 1].qualifying then 0 else 1)
  }

  /** The masses a threshold `t` selects, computed straight from the stored orbits. */
  function KeplerMassesAt(s: seq<EntryView>, t: real, num: Numerics): seq<real>
  {
    if |s| == 0 then []
    else KeplerMassesAt(s[..|s| - 1], t, num)
         + (if Qualifies(s[|s| - 1].orbit.eccentricity, t)
            then [Kepler(s[|s| - 1].orbit, num).keplerMass] else [])
  }

  /** Some entry passes threshold `t`. */
  ghost predicate HasQualified(s: seq<EntryView>, t: real)
  {
    exists i :: 0 <= i < |s| && Qualifies(s[i].orbit.eccentricity, t)
  }

  /** Each entry is either listed by its mass or counted as disqualified. */
  lemma {:induction false} MassesAndDisqualifiedPartition(s: seq<EntryView>)
    ensures |QualifiedMasses(s)| + DisqualifiedCount(s) == |s|
  {
    if |s| > 0 {
      MassesAndDisqualifiedPartition(s[..|s| - 1]);
    }
  }

  /** Re-qualifying twice with an unchanged threshold is re-qualifying once. */
  lemma RequalifyIdempotent(s: seq<EntryView>, t: real)
    ensures Requalify(Requalify(s, t), t) == Requalify(s, t)
  {
  }

  /** After re-qualifying at `t` and recomputing, the mass list is exactly the
      Kepler mass of each entry whose stored eccentricity passes `t`, in order:
      estimates left over from earlier thresholds never leak in. */
  lemma {:induction false} MassesAfterRefresh(s: seq<EntryView>, t: real, num: Numerics)
    ensures QualifiedMasses(Computed(Requalify(s, t), num)) == KeplerMassesAt(s, t, num)
  {
    if |s| > 0 {
      var s' := s[..|s| - 1];
      assert Computed(Requalify(s, t), num)[..|s| - 1] == Computed(Requalify(s', t), num);
      MassesAfterRefresh(s', t, num);
    }
  }

  /** The disqualified count at `t` is what the mass list at `t` leaves out. */
  lemma {:induction false} DisqualifiedAt(s: seq<EntryView>, t: real, num: Numerics)
    ensures DisqualifiedCount(Computed(Requalify(s, t), num)) == DisqualifiedCount(Requalify(s, t))
    ensures DisqualifiedCount(Requalify(s, t)) + |KeplerMassesAt(s, t, num)| == |s|
    ensures HasQualified(s, t) ==> |KeplerMassesAt(s, t, num)| > 0
  {
    if |s| > 0 {
      var s' := s[..|s| - 1];
      assert Computed(Requalify(s, t), num)[..|s| - 1] == Computed(Requalify(s', t), num);
      assert Requalify(s, t)[..|s| - 1] == Requalify(s', t);
      DisqualifiedAt(s', t, num);
      if HasQualified(s, t) && !Qualifies(s[|s| - 1].orbit.eccentricity, t) {
        var i :| 0 <= i < |s| && Qualifies(s[i].orbit.eccentricity, t);
        assert s'[i] == s[i];
      }
    }
  }

  /** Two vectors with the same stored orbits, entry by entry. */
  ghost predicate SameOrbits(s: seq<EntryView>, s': seq<EntryView>)
  {
    |s| == |s'| && forall i :: 0 <= i < |s| ==> s[i].orbit == s'[i].orbit
  }

  /** Re-qualifying and recomputing touch only flags and estimates. */
  lemma RefreshKeepsOrbits(s: seq<EntryView>, t: real, num: Numerics)
    ensures SameOrbits(Computed(Requalify(s, t), num), s)
  {
  }

  /** What a threshold selects depends only on the stored orbits, not on the
      flags or estimates an earlier step left behind. */
  lemma {:induction false} SameOrbitsAgree(s: seq<EntryView>, s': seq<EntryView>, t: real, num: Numerics)
    requires SameOrbits(s, s')
    ensures KeplerMassesAt(s, t, num) == KeplerMassesAt(s', t, num)
    ensures DisqualifiedCount(Requalify(s, t)) == DisqualifiedCount(Requalify(s', t))
    ensures HasQualified(s, t) <==> HasQualified(s', t)
  {
    if |s| > 0 {
      var n := |s| - 1;
      assert Requalify(s, t)[..n] == Requalify(s[..n], t);
      assert Requalify(s', t)[..n] == Requalify(s'[..n], t);
      SameOrbitsAgree(s[..n], s'[..n], t, num);
      if HasQualified(s, t) {
        var i :| 0 <= i < |s| && Qualifies(s[i].orbit.eccentricity, t);
        assert Qualifies(s'[i].orbit.eccentricity, t);
      }
      if HasQualified(s', t) {
        var i :| 0 <= i < |s'| && Qualifies(s'[i].orbit.eccentricity, t);
        assert Qualifies(s[i].orbit.eccentricity, t);
      }
    }
  }

  class Database {
    var satellites: seq<Entry>
    var eccentricityQualifier: real
    /** Whether `set_eccentricity_qualifier` has run; the constructor never sets the qualifier. */
    ghost var qualifierAssigned: bool

    /** The no-aliasing invariant: `m_satellites` holds its entries by value,
        so no two positions of the vector share an entry object. */
    ghost predicate Valid()
      reads this
    {
      forall i, j :: 0 <= i < j < |satellites| ==> satellites[i] != satellites[j]
    }

    ghost function Snapshot(): seq<EntryView>
      reads this, satellites
    {
      Views(satellites)
    }

    /** `UCSSatelliteDatabase(csv_path, eccentricity_qualifier)` with the rows the
        CSV reader yields; `m_eccentricity_qualifier` is left unassigned. */
    constructor (rows: seq<RawRow>, qualifier: real, stod: Parser)
      ensures Valid() && !qualifierAssigned
      ensures |satellites| == |rows|
      ensures forall i :: 0 <= i < |rows| ==>
                fresh(satellites[i])
                && satellites[i].NormalizedFrom(CandidateFor(rows[i], i + 1, qualifier), stod)
    {
      satellites := [];
      qualifierAssigned := false;
      new;
      var count, disqualified := LoadRows(rows, qualifier, stod);
    }

    /** The constructor's read loop: one entry per row, ids 1, 2, 3, ... in read
        order, appended in order, and the count of those that came out disqualified. */
    method LoadRows(rows: seq<RawRow>, qualifier: real, stod: Parser) returns (count: nat, disqualified: nat)
      requires satellites == []
      modifies this`satellites
      ensures Valid()
      ensures count == |satellites| == |rows|
      ensures forall i :: 0 <= i < |rows| ==>
                fresh(satellites[i])
                && satellites[i].NormalizedFrom(CandidateFor(rows[i], i + 1, qualifier), stod)
      ensures disqualified == DisqualifiedCount(Snapshot())
    {
      count, disqualified := 0, 0;
      while count < |rows|
        invariant count <= |rows| && |satellites| == count
        invariant Valid()
        invariant forall i :: 0 <= i < count ==>
                    fresh(satellites[i])
                    && satellites[i].NormalizedFrom(CandidateFor(rows[i], i + 1, qualifier), stod)
        invariant disqualified == DisqualifiedCount(Snapshot())
      {
        ghost var prev := satellites;
        count := count + 1;
        var qualified := AppendEntry(CandidateFor(rows[count - 1], count, qualifier), stod);
        assert forall i :: 0 <= i < count - 1 ==> satellites[i] == prev[i];
        if !qualified {
          disqualified := disqualified + 1;
        }
      }
    }

    /** One iteration of the read loop: build the entry for `candidate` and push it. */
    method AppendEntry(candidate: Candidate, stod: Parser) returns (qualified: bool)
      requires Valid()
      modifies this`satellites
      ensures Valid()
      ensures |satellites| == |old(satellites)| + 1
      ensures satellites[..|satellites| - 1] == old(satellites)
      ensures fresh(satellites[|satellites| - 1])
      ensures satellites[|satellites| - 1].NormalizedFrom(candidate, stod)
      ensures qualified == satellites[|satellites| - 1].qualifying
      ensures DisqualifiedCount(Snapshot()) == old(DisqualifiedCount(Snapshot())) + (if qualified then 0 else 1)
    {
      ghost var before := Snapshot();
      var entry := new Entry(candidate, stod);
      qualified := entry.IsQualified();
      satellites := satellites + [entry];
      assert Snapshot()[..|satellites| - 1] == before;
    }

    /** `set_eccentricity_qualifier(qualifier)`: stores the value and touches no entry. */
    method SetEccentricityQualifier(qualifier: real)
      modifies this`eccentricityQualifier, this`qualifierAssigned
      ensures eccentricityQualifier == qualifier && qualifierAssigned
      ensures Snapshot() == old(Snapshot())
    {
      eccentricityQualifier := qualifier;
      qualifierAssigned := true;
    }

    /** `update_satellite_qualification()`: applies the entry rule with the
        current qualifier to every entry; nothing but the flags changes. */
    method UpdateSatelliteQualification()
      requires Valid() && qualifierAssigned
      modifies satellites
      ensures Snapshot() == Requalify(old(Snapshot()), eccentricityQualifier)
    {
      ghost var before := Snapshot();
      var i := 0;
      while i < |satellites|
        invariant 0 <= i <= |satellites|
        invariant forall j :: 0 <= j < i ==> satellites[j].View() == RequalifyOne(before[j], eccentricityQualifier)
        invariant forall j :: i <= j < |satellites| ==> satellites[j].View() == before[j]
      {
        satellites[i].UpdateSatelliteQualification(eccentricityQualifier);
        i := i + 1;
      }
    }

    /** `compute_kepler_statistics()`: recomputes the derived values of the
        qualified entries; disqualified entries keep theirs. */
    method ComputeKeplerStatistics(num: Numerics)
      requires Valid()
      modifies satellites
      ensures Snapshot() == Computed(old(Snapshot()), num)
    {
      ghost var before := Snapshot();
      var i := 0;
      while i < |satellites|
        invariant 0 <= i <= |satellites|
        invariant forall j :: 0 <= j < i ==>
                    satellites[j].View() == if before[j].qualifying then ComputeOne(before[j], num) else before[j]
        invariant forall j :: i <= j < |satellites| ==> satellites[j].View() == before[j]
      {
        if satellites[i].IsQualified() {
          satellites[i].ComputeKeplerStatistics(num);
        }
        i := i + 1;
      }
    }

    /** `get_mass_estimations()`: the Kepler mass of each qualified entry, in
        vector order; one for every entry the disqualified count leaves out. */
    method GetMassEstimations() returns (vec: seq<real>)
      ensures vec == QualifiedMasses(Snapshot())
      ensures |vec| == |satellites| - DisqualifiedCount(Snapshot())
    {
      ghost var s := Snapshot();
      vec := [];
      var i := 0;
      while i < |satellites|
        invariant 0 <= i <= |satellites|
        invariant vec == QualifiedMasses(s[..i])
      {
        assert s[..i + 1][..i] == s[..i];
        if satellites[i].IsQualified() {
          vec := vec + [satellites[i].GetKeplerMass()];
        }
        i := i + 1;
      }
      assert s[..i] == s;
      MassesAndDisqualifiedPartition(s);
    }

    /** `get_disqualified_satellite_count()`: the number of entries whose flag is false. */
    method GetDisqualifiedSatelliteCount() returns (buf: nat)
      ensures buf == DisqualifiedCount(Snapshot())
      ensures buf + |QualifiedMasses(Snapshot())| == |satellites|
    {
      ghost var s := Snapshot();
      buf := 0;
      var i := 0;
      while i < |satellites|
        invariant 0 <= i <= |satellites|
        invariant buf == DisqualifiedCount(s[..i])
      {
        assert s[..i + 1][..i] == s[..i];
        if !satellites[i].IsQualified() {
          buf := buf + 1;
        }
        i := i + 1;
      }
      assert s[..i] == s;
      MassesAndDisqualifiedPartition(s);
    }
  }
}
