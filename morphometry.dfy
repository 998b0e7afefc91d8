/**
 * The morphometry table of `BronchialTree` (bronchial_tree.py): the unit
 * conversion applied to each row of the table, the average area per tube, and
 * the choice of the radii handed to the cavity enhancement filter.
 *
 * The table itself is an input: reading the file is not part of this model.
 */
module Morphometry {
  import opened Wrappers
  import Volumes

  /** One row of the table as it is read, in centimetres. */
  datatype MorphometryRow = MorphometryRow(
    generation: int,
    numTubes: real,
    lengthCm: real,
    diameterCm: real,
    branchingAngle: real,
    gravityAngle: real,
    totalAreaCm2: real,
    volumeCm3: real,
    cumulativeVolumeCm3: real)

  /** One row after conversion, with the renamed columns, in millimetres. */
  datatype MorphometryRecord = MorphometryRecord(
    generation: int,
    numTubes: real,
    lengthMm: real,
    radiusMm: real,
    branchingAngle: real,
    gravityAngle: real,
    averageAreaPerTubeMm2: real,
    volumeMl: real,
    cumulativeVolumeMl: real)

  // ---------------------------------------------------------------------------
  // Unit conversion: read_in_morphometry_info and calculate_per_tube
  // ---------------------------------------------------------------------------

  /** The column-wise conversions of read_in_morphometry_info, before the area
      column is replaced by the area per tube: area x100, length x10, diameter
      x10 then halved. */
  function ConvertUnits(row: MorphometryRow): MorphometryRecord {
    MorphometryRecord(
      row.generation, row.numTubes, row.lengthCm * 10.0, (row.diameterCm * 10.0) / 2.0,
      row.branchingAngle, row.gravityAngle, row.totalAreaCm2 * 100.0,
      row.volumeCm3, row.cumulativeVolumeCm3)
  }

  /** calculate_per_tube: the area column, multiplied by 100 once more, divided
      by the number of tubes; Python raises ZeroDivisionError when that is 0. */
  function CalculatePerTube(rec: MorphometryRecord): (r: Result<real>)
    ensures r.Err? <==> rec.numTubes == 0.0
    ensures r.Err? ==> r.error == ZeroDivisionError
    ensures r.Ok? ==> r.value * rec.numTubes == rec.averageAreaPerTubeMm2 * 100.0
  {
    if rec.numTubes == 0.0 then Err(ZeroDivisionError)
    else Ok((rec.averageAreaPerTubeMm2 * 100.0) / rec.numTubes)
  }

  /** One row through read_in_morphometry_info. */
  function ConvertRow(row: MorphometryRow): (r: Result<MorphometryRecord>)
    ensures r.Err? <==> row.numTubes == 0.0
    ensures r.Err? ==> r.error == ZeroDivisionError
    ensures r.Ok? ==> Converted(row, r.value)
  {
    var rec := ConvertUnits(row);
    match CalculatePerTube(rec)
    case Err(e) => Err(e)
    case Ok(area) => Ok(rec.(averageAreaPerTubeMm2 := area))
  }

  /** What the conversion promises of one row: lengths in millimetres, the
      radius is half the diameter, the area per tube times the number of tubes
      is the total area multiplied by 100 twice, and nothing else changes. */
  predicate Converted(row: MorphometryRow, rec: MorphometryRecord) {
    && rec.generation == row.generation
    && rec.numTubes == row.numTubes
    && rec.lengthMm == 10.0 * row.lengthCm
    && 2.0 * rec.radiusMm == 10.0 * row.diameterCm
    && rec.averageAreaPerTubeMm2 * row.numTubes == 10000.0 * row.totalAreaCm2
    && rec.branchingAngle == row.branchingAngle
    && rec.gravityAngle == row.gravityAngle
    && rec.volumeMl == row.volumeCm3
    && rec.cumulativeVolumeMl == row.cumulativeVolumeCm3
  }

  /** read_in_morphometry_info on the rows of the table: `apply` converts the
      rows in order and the first row without tubes raises. */
  function ReadInMorphometryInfo(rows: seq<MorphometryRow>): (r: Result<seq<MorphometryRecord>>)
    ensures r.Err? <==> exists i :: 0 <= i < |rows| && rows[i].numTubes == 0.0
    ensures r.Err? ==> r.error == ZeroDivisionError
    ensures r.Ok? ==> |r.value| == |rows| && forall i :: 0 <= i < |rows| ==> Converted(rows[i], r.value[i])
  {
    if |rows| == 0 then Ok([])
    else
      match ConvertRow(rows[0])
      case Err(e) => Err(e)
      case Ok(rec) =>
        match ReadInMorphometryInfo(rows[1..])
        case Err(e) => Err(e)
        case Ok(recs) => Ok([rec] + recs)
  }

  /** The centimetre row a converted record came from. */
  function ToCentimetres(rec: MorphometryRecord): MorphometryRow {
    MorphometryRow(
      rec.generation, rec.numTubes, rec.lengthMm / 10.0, rec.radiusMm / 5.0,
      rec.branchingAngle, rec.gravityAngle, rec.averageAreaPerTubeMm2 * rec.numTubes / 10000.0,
      rec.volumeMl, rec.cumulativeVolumeMl)
  }

  /** A converted row is recovered from its record. */
  lemma RowRoundTrip(row: MorphometryRow)
    requires ConvertRow(row).Ok?
    ensures ToCentimetres(ConvertRow(row).value) == row
  {
    var rec := ConvertRow(row).value;
    assert rec.averageAreaPerTubeMm2 * rec.numTubes / 10000.0 == row.totalAreaCm2;
  }

  /** The conversion loses nothing: every row is recovered from its record. */
  lemma {:induction false} ConversionRoundTrip(rows: seq<MorphometryRow>)
    requires ReadInMorphometryInfo(rows).Ok?
    ensures forall i :: 0 <= i < |rows| ==> ToCentimetres(ReadInMorphometryInfo(rows).value[i]) == rows[i]
  {
    if |rows| > 0 {
      RowRoundTrip(rows[0]);
      ConversionRoundTrip(rows[1..]);
      var recs := ReadInMorphometryInfo(rows).value;
      assert recs == [ConvertRow(rows[0]).value] + ReadInMorphometryInfo(rows[1..]).value;
      forall i | 1 <= i < |rows|
        ensures ToCentimetres(recs[i]) == rows[i]
      {
        assert recs[i] == ReadInMorphometryInfo(rows[1..]).value[i - 1];
        assert rows[i] == rows[1..][i - 1];
      }
    }
  }

  // ---------------------------------------------------------------------------
  // Radius selection: calculate_radii_per_generation
  // ---------------------------------------------------------------------------

  predicate NoDuplicates<T(==)>(xs: seq<T>) {
    forall i, j :: 0 <= i < j < |xs| ==> xs[i] != xs[j]
  }

  /** The distinct elements of xs, in order of first appearance. */
  function Distinct(xs: seq<int>): (ys: seq<int>)
    ensures NoDuplicates(ys)
    ensures forall x :: x in ys <==> x in xs
  {
    if |xs| == 0 then []
    else
      var ys := Distinct(xs[..|xs| - 1]);
      assert xs == xs[..|xs| - 1] + [xs[|xs| - 1]];
      if xs[|xs| - 1] in ys then ys else ys + [xs[|xs| - 1]]
  }

  /** The keys of `groupby('generation')`: each generation of the table once. */
  function Generations(records: seq<MorphometryRecord>): (gs: seq<int>)
    ensures NoDuplicates(gs)
    ensures forall g :: g in gs <==> exists i :: 0 <= i < |records| && records[i].generation == g
  {
    var column := seq(|records|, i requires 0 <= i < |records| => records[i].generation);
    assert forall g :: g in column <==> exists i :: 0 <= i < |records| && records[i].generation == g by {
      forall g | g in column
        ensures exists i :: 0 <= i < |records| && records[i].generation == g
      {
        var i :| 0 <= i < |column| && column[i] == g;
      }
      forall g | exists i :: 0 <= i < |records| && records[i].generation == g
        ensures g in column
      {
        var i :| 0 <= i < |records| && records[i].generation == g;
        assert column[i] == g;
      }
    }
    Distinct(column)
  }

  /** The radius_mm values of the records of generation g, in table order. */
  function RadiiOf(records: seq<MorphometryRecord>, g: int): (rs: seq<real>)
    ensures |rs| > 0 <==> exists i :: 0 <= i < |records| && records[i].generation == g
    ensures forall x :: x in rs <==> exists i :: 0 <= i < |records| && records[i].generation == g && records[i].radiusMm == x
  {
    if |records| == 0 then []
    else
      var rest := RadiiOf(records[1..], g);
      assert forall i :: 1 <= i < |records| ==> records[i] == records[1..][i - 1];
      assert forall x :: x in rest ==> exists i :: 0 <= i < |records| && records[i].generation == g && records[i].radiusMm == x by {
        forall x | x in rest
          ensures exists i :: 0 <= i < |records| && records[i].generation == g && records[i].radiusMm == x
        {
          var j :| 0 <= j < |records[1..]| && records[1..][j].generation == g && records[1..][j].radiusMm == x;
          assert records[j + 1] == records[1..][j];
        }
      }
      if records[0].generation == g then [records[0].radiusMm] + rest else rest
  }

  /** `groupby('generation')['radius_mm'].apply(list)`: one list of radii per
      generation. */
  function GroupedRadii(records: seq<MorphometryRecord>): (groups: seq<seq<real>>)
    ensures |groups| == |Generations(records)|
    ensures forall k :: 0 <= k < |groups| ==> groups[k] == RadiiOf(records, Generations(records)[k]) && |groups[k]| > 0
  {
    var gs := Generations(records);
    assert forall k :: 0 <= k < |gs| ==> |RadiiOf(records, gs[k])| > 0 by {
      forall k | 0 <= k < |gs|
        ensures |RadiiOf(records, gs[k])| > 0
      {
        assert gs[k] in gs;
      }
    }
    seq(|gs|, k requires 0 <= k < |gs| => RadiiOf(records, gs[k]))
  }

  /** statistics.fmean of a non-empty list. */
  function Mean(xs: seq<real>): real
    requires |xs| > 0
  {
    Volumes.Sum(xs) / |xs| as real
  }

  /** math.ceil. */
  function Ceil(x: real): (c: int)
    ensures x <= c as real < x + 1.0
  {
    -((-x).Floor)
  }

  /** The mean radius of generation g, for a generation of the table. */
  function GenerationMean(records: seq<MorphometryRecord>, g: int): real
    requires g in Generations(records)
  {
    Mean(RadiiOf(records, g))
  }

  /** The test of calculate_radii_per_generation: a mean is kept when it
      reaches at least one of the two in-plane voxel spacings. */
  predicate Qualifies(avg: real, xMm: real, yMm: real) {
    avg >= xMm || avg >= yMm
  }

  /** calculate_radii_per_generation. The result has no duplicates, and a
      radius is in it exactly when it is the ceiling of the mean radius of
      some generation whose mean reaches x_mm or y_mm; so every radius chosen
      reaches one of the two spacings. */
  method CalculateRadiiPerGeneration(records: seq<MorphometryRecord>, xMm: real, yMm: real) returns (radii: seq<int>)
    ensures NoDuplicates(radii)
    ensures forall r :: r in radii <==>
              exists g :: g in Generations(records) && Qualifies(GenerationMean(records, g), xMm, yMm)
                       && r == Ceil(GenerationMean(records, g))
    ensures forall r :: r in radii ==> r as real >= xMm || r as real >= yMm
  {
    var groupedRadii := GroupedRadii(records);
    ghost var gs := Generations(records);
    var averageRadii: seq<int> := [];
    for i := 0 to |groupedRadii|
      invariant forall r :: r in averageRadii <==>
                  exists k :: 0 <= k < i && Qualifies(Mean(groupedRadii[k]), xMm, yMm)
                           && r == Ceil(Mean(groupedRadii[k]))
    {
      var avgRadius := Mean(groupedRadii[i]);
      if avgRadius >= xMm || avgRadius >= yMm {
        averageRadii := averageRadii + [Ceil(avgRadius)];
      }
    }
    radii := Distinct(averageRadii);
    forall r | r in radii
      ensures exists g :: g in gs && Qualifies(GenerationMean(records, g), xMm, yMm)
                       && r == Ceil(GenerationMean(records, g))
      ensures r as real >= xMm || r as real >= yMm
    {
      var k :| 0 <= k < |groupedRadii| && Qualifies(Mean(groupedRadii[k]), xMm, yMm)
               && r == Ceil(Mean(groupedRadii[k]));
      assert GenerationMean(records, gs[k]) == Mean(groupedRadii[k]);
    }
    forall r, g | g in gs && Qualifies(GenerationMean(records, g), xMm, yMm)
                  && r == Ceil(GenerationMean(records, g))
      ensures r in radii
    {
      var k :| 0 <= k < |gs| && gs[k] == g;
      assert Mean(groupedRadii[k]) == GenerationMean(records, g);
    }
  }
}
