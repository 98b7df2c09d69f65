/** The row filters of preprocess.py, which prepares a catalogue file for the
    analyser. Phase 1 keeps the header and every line with as many tab
    delimiters as the header. Phase 2 reads the kept lines as records keyed
    by the header's column names, recomputes each record's eccentricity from
    its apogee and perigee, and drops every record for which that fails. */
module Preprocess {
  import opened Foreign
  import opened UtilStrings

  const TAB: char := '\t'

  /** `str.count` of a single character. */
  function CountChar(s: string, c: char): nat
  {
    multiset(s)[c]
  }

  // ---------------------------------------------------------------------------
  // Phase 1: delimiter sanity check

  /** The lines of `body` that carry exactly `expected` tabs, in order. */
  function Kept(body: seq<string>, expected: nat): (r: seq<string>)
    ensures |r| <= |body|
    ensures forall line :: line in r ==> line in body && CountChar(line, TAB) == expected
  {
    if body == [] then []
    else
      var n := |body| - 1;
      Kept(body[..n], expected) + (if CountChar(body[n], TAB) == expected then [body[n]] else [])
  }

  /** The numbers reported for the rejected lines of `body`, whose first line
      has number `first`. */
  function DroppedLines(body: seq<string>, expected: nat, first: int): (r: seq<int>)
    ensures |r| <= |body|
    ensures forall k :: k in r ==> first <= k < first + |body| && CountChar(body[k - first], TAB) != expected
  {
    if body == [] then []
    else
      var n := |body| - 1;
      DroppedLines(body[..n], expected, first) + (if CountChar(body[n], TAB) == expected then [] else [first + n])
  }

  /** Filtering distributes over concatenation, so kept lines keep their
      input order. */
  lemma {:induction false} KeptConcat(a: seq<string>, b: seq<string>, expected: nat)
    ensures Kept(a + b, expected) == Kept(a, expected) + Kept(b, expected)
  {
    if b != [] {
      var n := |b| - 1;
      assert (a + b)[..|a + b| - 1] == a + b[..n];
      KeptConcat(a, b[..n], expected);
    } else {
      assert a + b == a;
    }
  }

  /** The kept and reported lines together number the lines of the body. */
  lemma {:induction false} KeptAndDroppedPartition(body: seq<string>, expected: nat, first: int)
    ensures |Kept(body, expected)| + |DroppedLines(body, expected, first)| == |body|
  {
    if body != [] {
      KeptAndDroppedPartition(body[..|body| - 1], expected, first);
    }
  }

  /** The fate of each line of the body: it is kept exactly when its tab
      count is the header's and reported exactly when it is not, so it ends
      up in one of the two outputs and never in both. */
  lemma {:induction false} LineFate(body: seq<string>, expected: nat, first: int, i: int)
    requires 0 <= i < |body|
    ensures body[i] in Kept(body, expected) <==> CountChar(body[i], TAB) == expected
    ensures first + i in DroppedLines(body, expected, first) <==> CountChar(body[i], TAB) != expected
  {
    var n := |body| - 1;
    if i < n {
      LineFate(body[..n], expected, first, i);
      assert body[..n][i] == body[i];
    }
  }

  /** A file whose lines all agree with the header passes unchanged. */
  lemma {:induction false} KeptAllWhenConsistent(body: seq<string>, expected: nat, first: int)
    requires forall i :: 0 <= i < |body| ==> CountChar(body[i], TAB) == expected
    ensures Kept(body, expected) == body
    ensures DroppedLines(body, expected, first) == []
  {
    if body != [] {
      var n := |body| - 1;
      KeptAllWhenConsistent(body[..n], expected, first);
      assert body[..n] + [body[n]] == body;
    }
  }

  datatype Phase1Output = Phase1Output(written: seq<string>, dropped: seq<int>)

  /** Phase 1 over the lines of the input file: the header is written first,
      then every later line whose tab count equals the header's; the others
      are reported by their 1-based line number. A file without lines has no
      header, and the script stops there. */
  method Phase1(lines: seq<string>) returns (r: Option<Phase1Output>)
    ensures lines == [] <==> r.None?
    ensures r.Some? ==>
              var expected := CountChar(lines[0], TAB);
              && r.value.written == [lines[0]] + Kept(lines[1..], expected)
              && r.value.dropped == DroppedLines(lines[1..], expected, 2)
  {
    if |lines| == 0 {
      return None;
    }
    var header := lines[0];
    var expected := CountChar(header, TAB);
    var written := [header];
    var dropped := [];
    var idx := 1;
    while idx < |lines|
      invariant 1 <= idx <= |lines|
      invariant written == [header] + Kept(lines[1..idx], expected)
      invariant dropped == DroppedLines(lines[1..idx], expected, 2)
    {
      var line := lines[idx];
      ghost var seen := lines[1..idx + 1];
      assert seen[..|seen| - 1] == lines[1..idx] && seen[|seen| - 1] == line;
      if CountChar(line, TAB) == expected {
        written := written + [line];
      } else {
        dropped := dropped + [idx + 1];
      }
      idx := idx + 1;
    }
    assert lines[1..idx] == lines[1..];
    return Some(Phase1Output(written, dropped));
  }

  // ---------------------------------------------------------------------------
  // Phase 2: eccentricity recalculation

  const PERIOD_KEY := "Period (minutes)"
  const PERIGEE_KEY := "Perigee (km)"
  const APOGEE_KEY := "Apogee (km)"
  const ECCENTRICITY_KEY := "Eccentricity"

  /** A record value: the text read from the file, or the number the
      recalculation stores. */
  datatype Cell = Text(text: string) | Number(number: real)

  /** One record of the dictionary reader. A column the line is too short
      for has no key here; it stands for the reader's `None`. */
  type Row = map<string, Cell>

  /** `float(line[key].replace(',', ''))`: a missing column, a value that is
      not text or text that does not parse all raise. */
  function Field(row: Row, key: string, pyFloat: Parser): (r: Option<real>)
    ensures r.Some? ==> key in row && row[key].Text? && pyFloat(Without(row[key].text, COMMA)) == r
  {
    if key in row && row[key].Text? then pyFloat(Without(row[key].text, COMMA)) else None
  }

  /** The recalculated record, or None where the script's `try` fails: one of
      the four fields does not parse, or apogee plus perigee is zero. */
  function Recalculated(row: Row, pyFloat: Parser): (r: Option<Row>)
    ensures r.Some? <==>
              && Field(row, PERIOD_KEY, pyFloat).Some?
              && Field(row, PERIGEE_KEY, pyFloat).Some?
              && Field(row, APOGEE_KEY, pyFloat).Some?
              && Field(row, ECCENTRICITY_KEY, pyFloat).Some?
              && Field(row, APOGEE_KEY, pyFloat).value + Field(row, PERIGEE_KEY, pyFloat).value != 0.0
    ensures r.Some? ==> r.value.Keys == row.Keys
    ensures r.Some? ==> forall k :: k in row && k != ECCENTRICITY_KEY ==> r.value[k] == row[k]
    ensures r.Some? ==>
              var perigee := Field(row, PERIGEE_KEY, pyFloat).value;
              var apogee := Field(row, APOGEE_KEY, pyFloat).value;
              r.value[ECCENTRICITY_KEY] == Number((apogee - perigee) / (apogee + perigee))
  {
    match (Field(row, PERIOD_KEY, pyFloat), Field(row, PERIGEE_KEY, pyFloat),
           Field(row, APOGEE_KEY, pyFloat), Field(row, ECCENTRICITY_KEY, pyFloat))
    case (Some(_), Some(perigee), Some(apogee), Some(_)) =>
      if apogee + perigee == 0.0 then None
      else Some(row[ECCENTRICITY_KEY := Number((apogee - perigee) / (apogee + perigee))])
    case _ => None
  }

  /** For non-negative altitudes the recalculated eccentricity lies in
      [-1, 1], and it is non-negative exactly when apogee is at least
      perigee. */
  lemma RecalculatedEccentricityBounded(row: Row, pyFloat: Parser)
    requires Recalculated(row, pyFloat).Some?
    requires Field(row, PERIGEE_KEY, pyFloat).value >= 0.0
    requires Field(row, APOGEE_KEY, pyFloat).value >= 0.0
    ensures var e := Recalculated(row, pyFloat).value[ECCENTRICITY_KEY].number;
            && -1.0 <= e <= 1.0
            && (e >= 0.0 <==> Field(row, APOGEE_KEY, pyFloat).value >= Field(row, PERIGEE_KEY, pyFloat).value)
  {
    var p := Field(row, PERIGEE_KEY, pyFloat).value;
    var a := Field(row, APOGEE_KEY, pyFloat).value;
    var e := (a - p) / (a + p);
    assert Recalculated(row, pyFloat).value[ECCENTRICITY_KEY].number == e;
    assert e * (a + p) == a - p;
    assert (1.0 - e) * (a + p) == 2.0 * p;
    assert (e + 1.0) * (a + p) == 2.0 * a;
    NonNegativeFactor(1.0 - e, a + p);
    NonNegativeFactor(e + 1.0, a + p);
    NonNegativeFactor(e, a + p);
  }

  /** The sign of a product with a positive factor is that of the other. */
  lemma NonNegativeFactor(x: real, y: real)
    requires y > 0.0
    ensures x >= 0.0 <==> x * y >= 0.0
  {
  }

  /** The records phase 2 keeps, in order. */
  function KeptRows(rows: seq<Row>, pyFloat: Parser): (r: seq<Row>)
    ensures |r| <= |rows|
    ensures forall x: Row :: x in r ==> ECCENTRICITY_KEY in x && x[ECCENTRICITY_KEY].Number?
  {
    if rows == [] then []
    else
      var n := |rows| - 1;
      KeptRows(rows[..n], pyFloat) + (match Recalculated(rows[n], pyFloat) case Some(x) => [x] case None => [])
  }

  /** Every record phase 2 writes is the recalculation of a record it read. */
  lemma {:induction false} KeptRowsSound(rows: seq<Row>, pyFloat: Parser, x: Row)
    requires x in KeptRows(rows, pyFloat)
    ensures exists i :: 0 <= i < |rows| && Recalculated(rows[i], pyFloat) == Some(x)
  {
    var n := |rows| - 1;
    if x in KeptRows(rows[..n], pyFloat) {
      KeptRowsSound(rows[..n], pyFloat, x);
      var i :| 0 <= i < n && Recalculated(rows[..n][i], pyFloat) == Some(x);
      assert rows[..n][i] == rows[i];
    } else {
      assert Recalculated(rows[n], pyFloat) == Some(x);
    }
  }

  /** Phase 2 keeps records in their input order. */
  lemma {:induction false} KeptRowsConcat(a: seq<Row>, b: seq<Row>, pyFloat: Parser)
    ensures KeptRows(a + b, pyFloat) == KeptRows(a, pyFloat) + KeptRows(b, pyFloat)
  {
    if b != [] {
      var n := |b| - 1;
      assert (a + b)[..|a + b| - 1] == a + b[..n];
      KeptRowsConcat(a, b[..n], pyFloat);
    } else {
      assert a + b == a;
    }
  }

  /** Phase 2 over the records of the phase-1 file: each record is
      recalculated and kept, or counted as corrupted. */
  method Phase2(rows: seq<Row>, pyFloat: Parser) returns (out: seq<Row>, corrupted: nat)
    ensures out == KeptRows(rows, pyFloat)
    ensures corrupted + |out| == |rows|
  {
    out := [];
    corrupted := 0;
    var idx := 0;
    while idx < |rows|
      invariant 0 <= idx <= |rows|
      invariant out == KeptRows(rows[..idx], pyFloat)
      invariant corrupted + |out| == idx
    {
      assert rows[..idx + 1][..idx] == rows[..idx];
      match Recalculated(rows[idx], pyFloat) {
        case Some(line) =>
          out := out + [line];
        case None =>
          corrupted := corrupted + 1;
      }
      idx := idx + 1;
    }
    assert rows[..idx] == rows;
  }

  /** A record whose four fields are present and parse, and whose altitudes
      do not sum to zero, survives phase 2. */
  lemma {:induction false} KeptRowsComplete(rows: seq<Row>, pyFloat: Parser, i: int)
    requires 0 <= i < |rows|
    requires Recalculated(rows[i], pyFloat).Some?
    ensures Recalculated(rows[i], pyFloat).value in KeptRows(rows, pyFloat)
  {
    var n := |rows| - 1;
    if i < n {
      KeptRowsComplete(rows[..n], pyFloat, i);
    }
  }
}
