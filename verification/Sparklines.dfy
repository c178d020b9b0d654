/** The sparklines of the display overview: today's readings averaged over quarter hours, one
    series per quantity. Reading times are seconds since the epoch, bucket starts milliseconds,
    values unrounded. */
module Sparklines {
  import opened Collections
  import opened Ordering
  import opened Grouping
  import opened Averages

  datatype Row = Row(recordedAt: real, solar: Option<real>, consumption: Option<real>,
                     gridImport: Option<real>, gridExport: Option<real>, batterySoc: Option<real>)

  datatype Key = Solar | House | Grid | Battery

  datatype SparkPoint = SparkPoint(start: int, value: real)

  const BUCKET := 900_000

  /** `int(ts * 1000 // bucket_ms * bucket_ms)` */
  function BucketStart(t: real): int {
    (t * 1000.0 / BUCKET as real).Floor * BUCKET
  }

  function BucketKey(row: Row): int {
    BucketStart(row.recordedAt)
  }

  /** What a row adds to a series: missing powers count as zero, a missing state of charge as nothing. */
  function ValueOf(row: Row, key: Key): Option<real> {
    match key
    case Solar => Some(row.solar.GetOr(0.0))
    case House => Some(row.consumption.GetOr(0.0))
    case Grid => Some(row.gridExport.GetOr(0.0) - row.gridImport.GetOr(0.0))
    case Battery => row.batterySoc
  }

  function Field(key: Key): Row -> Option<real> {
    (row: Row) => ValueOf(row, key)
  }

  /** The values one bucket should hold for one series, in reading order. */
  function Values(rows: seq<Row>, start: int, key: Key): seq<real> {
    Present(Group(rows, BucketKey, start), Field(key))
  }

  // ----- filling the buckets -----

  type Buckets = map<int, map<Key, seq<real>>>

  function Cell(buckets: Buckets, start: int, key: Key): seq<real> {
    if start in buckets && key in buckets[start] then buckets[start][key] else []
  }

  /** `buckets.setdefault(start, {}).setdefault(key, []).append(value)` */
  function Add(buckets: Buckets, start: int, key: Key, value: real): Buckets {
    var bucket := if start in buckets then buckets[start] else map[];
    buckets[start := bucket[key := Cell(buckets, start, key) + [value]]]
  }

  ghost predicate Holds(buckets: Buckets, rows: seq<Row>, start: int) {
    && (start in buckets <==> start in KeysOf(rows, BucketKey))
    && forall key :: Cell(buckets, start, key) == Values(rows, start, key)
  }

  lemma ValuesSnoc(rows: seq<Row>, row: Row, start: int, key: Key)
    ensures Values(rows + [row], start, key)
         == if BucketKey(row) == start && ValueOf(row, key).Some?
            then Values(rows, start, key) + [ValueOf(row, key).value]
            else Values(rows, start, key)
  {
    var g := Group(rows, BucketKey, start);
    GroupSnoc(rows, row, BucketKey, start);
    assert (g + [row])[..|g|] == g;
  }

  lemma KeysSnoc(rows: seq<Row>, row: Row, start: int)
    ensures start in KeysOf(rows + [row], BucketKey) <==> start in KeysOf(rows, BucketKey) || start == BucketKey(row)
  {
    assert forall r :: r in rows + [row] <==> r in rows || r == row;
  }

  lemma AddCell(buckets: Buckets, start: int, key: Key, value: real, s: int, k: Key)
    ensures Cell(Add(buckets, start, key, value), s, k)
         == if s == start && k == key then Cell(buckets, s, k) + [value] else Cell(buckets, s, k)
    ensures Add(buckets, start, key, value).Keys == buckets.Keys + {start}
  {
  }

  /** The loop body for one reading: three values, and the state of charge if it is known. */
  method AddRow(before: Buckets, row: Row) returns (buckets: Buckets)
    ensures buckets.Keys == before.Keys + {BucketKey(row)}
    ensures forall s, key :: Cell(buckets, s, key)
                          == if s == BucketKey(row) && ValueOf(row, key).Some?
                             then Cell(before, s, key) + [ValueOf(row, key).value] else Cell(before, s, key)
  {
    var start := BucketStart(row.recordedAt);
    var b1 := Add(before, start, Solar, row.solar.GetOr(0.0));
    var b2 := Add(b1, start, House, row.consumption.GetOr(0.0));
    var b3 := Add(b2, start, Grid, row.gridExport.GetOr(0.0) - row.gridImport.GetOr(0.0));
    buckets := if row.batterySoc.Some? then Add(b3, start, Battery, row.batterySoc.value) else b3;
    forall s, key
      ensures Cell(buckets, s, key)
           == if s == start && ValueOf(row, key).Some?
              then Cell(before, s, key) + [ValueOf(row, key).value] else Cell(before, s, key)
    {
      AddCell(before, start, Solar, row.solar.GetOr(0.0), s, key);
      AddCell(b1, start, House, row.consumption.GetOr(0.0), s, key);
      AddCell(b2, start, Grid, row.gridExport.GetOr(0.0) - row.gridImport.GetOr(0.0), s, key);
      AddCell(b3, start, Battery, row.batterySoc.GetOr(0.0), s, key);
    }
  }

  lemma HoldsSnoc(before: Buckets, buckets: Buckets, rows: seq<Row>, row: Row, start: int)
    requires Holds(before, rows, start)
    requires buckets.Keys == before.Keys + {BucketKey(row)}
    requires forall key :: Cell(buckets, start, key)
                        == if start == BucketKey(row) && ValueOf(row, key).Some?
                           then Cell(before, start, key) + [ValueOf(row, key).value] else Cell(before, start, key)
    ensures Holds(buckets, rows + [row], start)
  {
    KeysSnoc(rows, row, start);
    forall key
      ensures Cell(buckets, start, key) == Values(rows + [row], start, key)
    {
      ValuesSnoc(rows, row, start, key);
    }
  }

  method FillBuckets(rows: seq<Row>) returns (buckets: Buckets)
    ensures forall start :: Holds(buckets, rows, start)
  {
    buckets := map[];
    for i := 0 to |rows|
      invariant forall start :: Holds(buckets, rows[..i], start)
    {
      ghost var before := buckets;
      buckets := AddRow(buckets, rows[i]);
      ghost var seen := rows[..i] + [rows[i]];
      assert rows[..i + 1] == seen;
      forall start
        ensures Holds(buckets, seen, start)
      {
        assert Holds(before, rows[..i], start);
        HoldsSnoc(before, buckets, rows[..i], rows[i], start);
      }
    }
    assert rows[..|rows|] == rows;
  }

  // ----- the series -----

  function Starts(rows: seq<Row>): seq<int> {
    SortInts(KeysOf(rows, BucketKey))
  }

  /** One point per listed bucket that has a value for the series. */
  function SeriesFor(starts: seq<int>, rows: seq<Row>, key: Key): seq<SparkPoint> {
    if starts == [] then []
    else
      var start, rest := starts[|starts| - 1], SeriesFor(starts[..|starts| - 1], rows, key);
      if Values(rows, start, key) == [] then rest else rest + [SparkPoint(start, Mean(Values(rows, start, key)))]
  }

  function Series(rows: seq<Row>, key: Key): seq<SparkPoint> {
    SeriesFor(Starts(rows), rows, key)
  }

  lemma SeriesForSnoc(starts: seq<int>, start: int, rows: seq<Row>, key: Key)
    ensures SeriesFor(starts + [start], rows, key)
         == if Values(rows, start, key) == [] then SeriesFor(starts, rows, key)
            else SeriesFor(starts, rows, key) + [SparkPoint(start, Mean(Values(rows, start, key)))]
  {
    assert (starts + [start])[..|starts|] == starts;
  }

  method BuildSeries(buckets: Buckets, ghost rows: seq<Row>, key: Key) returns (points: seq<SparkPoint>)
    requires forall start :: Holds(buckets, rows, start)
    ensures points == Series(rows, key)
  {
    points := [];
    var starts := SortInts(buckets.Keys);
    SameStarts(buckets, rows);
    var i := 0;
    while i < |starts|
      invariant 0 <= i <= |starts| && points == SeriesFor(starts[..i], rows, key)
    {
      points := AddBucket(points, starts, i, buckets, rows, key);
      i := i + 1;
    }
    assert starts[..i] == starts;
  }

  lemma SameStarts(buckets: Buckets, rows: seq<Row>)
    requires forall start :: Holds(buckets, rows, start)
    ensures SortInts(buckets.Keys) == Starts(rows)
  {
    var keys := KeysOf(rows, BucketKey);
    forall start | start in buckets.Keys
      ensures start in keys
    {
      assert Holds(buckets, rows, start);
    }
    forall start | start in keys
      ensures start in buckets.Keys
    {
      assert Holds(buckets, rows, start);
    }
    assert buckets.Keys == keys;
  }

  /** The body of that loop for one bucket. */
  method AddBucket(before: seq<SparkPoint>, starts: seq<int>, i: nat, buckets: Buckets, ghost rows: seq<Row>, key: Key)
    returns (points: seq<SparkPoint>)
    requires i < |starts| && forall start :: Holds(buckets, rows, start)
    requires before == SeriesFor(starts[..i], rows, key)
    ensures points == SeriesFor(starts[..i + 1], rows, key)
  {
    var values := Cell(buckets, starts[i], key);
    assert Holds(buckets, rows, starts[i]);
    SeriesForSnoc(starts[..i], starts[i], rows, key);
    assert starts[..i + 1] == starts[..i] + [starts[i]];
    points := if values == [] then before else before + [SparkPoint(starts[i], Mean(values))];
  }

  /** `_sparklines_for_today` on the rows the query returns: nothing for fewer than two readings. */
  method SparklinesForToday(rows: seq<Row>) returns (lines: map<Key, seq<SparkPoint>>)
    ensures |rows| < 2 ==> lines == map[]
    ensures |rows| >= 2 ==> forall key :: key in lines && lines[key] == Series(rows, key)
  {
    if |rows| < 2 {
      return map[];
    }
    var buckets := FillBuckets(rows);
    var solar := BuildSeries(buckets, rows, Solar);
    var house := BuildSeries(buckets, rows, House);
    var grid := BuildSeries(buckets, rows, Grid);
    var battery := BuildSeries(buckets, rows, Battery);
    lines := map[Solar := solar, House := house, Grid := grid, Battery := battery];
    forall key: Key
      ensures key in lines && lines[key] == Series(rows, key)
    {
      match key
      case Solar =>
      case House =>
      case Grid =>
      case Battery =>
    }
  }

  // ----- what the series mean -----

  /** A reading falls in exactly one bucket: the multiple of 15 minutes at or before it. */
  lemma BucketIsUnique(t: real, start: int)
    ensures BucketStart(t) == start
       <==> start % 900_000 == 0 && start as real <= t * 1000.0 < (start + 900_000) as real
  {
    var x, size := t * 1000.0, BUCKET as real;
    var q := (x / size).Floor;
    assert q as real <= x / size < (q + 1) as real;
    assert q as real * size <= x < (q + 1) as real * size;
    assert BucketStart(t) == q * BUCKET && (q * BUCKET) as real == q as real * size;
    if start % BUCKET == 0 && start as real <= x < (start + BUCKET) as real {
      var k := start / BUCKET;
      assert start == k * BUCKET;
      assert k < q + 1 && q < k + 1;
    }
  }

  lemma {:induction false} SeriesForMember(starts: seq<int>, rows: seq<Row>, key: Key, p: SparkPoint)
    ensures p in SeriesFor(starts, rows, key)
       <==> p.start in starts && Values(rows, p.start, key) != [] && p.value == Mean(Values(rows, p.start, key))
  {
    if starts != [] {
      SnocCases(starts);
      SeriesForMember(starts[..|starts| - 1], rows, key, p);
    }
  }

  lemma {:induction false} SeriesForIncreases(starts: seq<int>, rows: seq<Row>, key: Key)
    requires forall i, j :: 0 <= i < j < |starts| ==> starts[i] < starts[j]
    ensures var points := SeriesFor(starts, rows, key);
            forall i, j :: 0 <= i < j < |points| ==> points[i].start < points[j].start
  {
    if starts != [] {
      var init := starts[..|starts| - 1];
      var points := SeriesFor(init, rows, key);
      SeriesForIncreases(init, rows, key);
      forall i | 0 <= i < |points|
        ensures points[i].start < starts[|starts| - 1]
      {
        SeriesForMember(init, rows, key, points[i]);
      }
    }
  }

  ghost predicate HasPointAt(rows: seq<Row>, key: Key, start: int) {
    exists p :: p in Series(rows, key) && p.start == start
  }

  /** Each series is strictly increasing, and it has a point at `start` exactly when `start` is a
      multiple of 15 minutes and some reading with a value for the series falls in the 15 minutes
      from there. */
  lemma SeriesTimes(rows: seq<Row>, key: Key, start: int)
    ensures var points := Series(rows, key);
            forall i, j :: 0 <= i < j < |points| ==> points[i].start < points[j].start
    ensures HasPointAt(rows, key, start)
       <==> && start % 900_000 == 0
            && exists row :: row in rows && (key == Battery ==> row.batterySoc.Some?)
                             && start as real <= row.recordedAt * 1000.0 < (start + 900_000) as real
  {
    SeriesForIncreases(Starts(rows), rows, key);
    var group := Group(rows, BucketKey, start);
    if HasPointAt(rows, key, start) {
      var p :| p in Series(rows, key) && p.start == start;
      SeriesForMember(Starts(rows), rows, key, p);
      var x := Values(rows, start, key)[0];
      PresentMember(group, Field(key), x);
      var row :| row in group && Field(key)(row) == Some(x);
      GroupMember(rows, BucketKey, start, row);
      BucketIsUnique(row.recordedAt, start);
    }
    if row :| start % BUCKET == 0 && row in rows && ValueOf(row, key).Some?
              && start as real <= row.recordedAt * 1000.0 < (start + BUCKET) as real {
      BucketIsUnique(row.recordedAt, start);
      GroupMember(rows, BucketKey, start, row);
      PresentMember(group, Field(key), ValueOf(row, key).value);
      assert BucketKey(row) in KeysOf(rows, BucketKey);
      SeriesForMember(Starts(rows), rows, key, SparkPoint(start, Mean(Values(rows, start, key))));
    }
  }

  /** Solar, house and grid have points at the same times; battery's times are among them. */
  lemma SharedTimes(rows: seq<Row>, start: int)
    ensures HasPointAt(rows, Solar, start) == HasPointAt(rows, House, start) == HasPointAt(rows, Grid, start)
    ensures HasPointAt(rows, Battery, start) ==> HasPointAt(rows, Solar, start)
  {
    SeriesTimes(rows, Solar, start);
    SeriesTimes(rows, House, start);
    SeriesTimes(rows, Grid, start);
    SeriesTimes(rows, Battery, start);
  }

  /** The points' values, each weighted by the number of readings it averages. */
  function WeightedValues(points: seq<SparkPoint>, rows: seq<Row>, key: Key): real {
    if points == [] then 0.0
    else
      var p := points[|points| - 1];
      WeightedValues(points[..|points| - 1], rows, key) + Weight(Some(p.value), |Values(rows, p.start, key)|)
  }

  lemma WeightedValuesSnoc(points: seq<SparkPoint>, p: SparkPoint, rows: seq<Row>, key: Key)
    ensures WeightedValues(points + [p], rows, key)
         == WeightedValues(points, rows, key) + Weight(Some(p.value), |Values(rows, p.start, key)|)
  {
    assert (points + [p])[..|points|] == points;
  }

  lemma BucketTotal(rows: seq<Row>, start: int, key: Key)
    ensures Sum(Map(Group(rows, BucketKey, start), OrZero(Field(key))))
         == Weight(OptionalMean(Values(rows, start, key)), |Values(rows, start, key)|)
  {
    SumOfPresent(Group(rows, BucketKey, start), Field(key));
    WeightOfMean(Values(rows, start, key));
  }

  lemma {:induction false} ValuesOfStarts(starts: seq<int>, rows: seq<Row>, key: Key)
    ensures WeightedValues(SeriesFor(starts, rows, key), rows, key)
         == GroupTotal(starts, rows, BucketKey, OrZero(Field(key)))
  {
    if starts != [] {
      var init, start := starts[..|starts| - 1], starts[|starts| - 1];
      var values := Values(rows, start, key);
      ValuesOfStarts(init, rows, key);
      BucketTotal(rows, start, key);
      if values != [] {
        WeightedValuesSnoc(SeriesFor(init, rows, key), SparkPoint(start, Mean(values)), rows, key);
      }
    }
  }

  /** Conservation: over a series, mean times count adds up to the sum of all its readings. */
  lemma ReadingsAreConserved(rows: seq<Row>, key: Key)
    ensures WeightedValues(Series(rows, key), rows, key) == Sum(Present(rows, Field(key)))
  {
    ValuesOfStarts(Starts(rows), rows, key);
    forall row | row in rows
      ensures BucketKey(row) in Starts(rows)
    {
      assert BucketKey(row) in KeysOf(rows, BucketKey);
    }
    GroupTotalIsTotal(Starts(rows), rows, BucketKey, OrZero(Field(key)));
    SumOfPresent(rows, Field(key));
  }

  /** The present values of a quantity among the readings of the quarter hour that starts at `start`. */
  function InQuarter(rows: seq<Row>, start: int, quantity: Row -> Option<real>): seq<real> {
    if rows == [] then []
    else
      var row, before := rows[|rows| - 1], InQuarter(rows[..|rows| - 1], start, quantity);
      if start as real <= row.recordedAt * 1000.0 < (start + 900_000) as real && quantity(row).Some?
      then before + [quantity(row).value] else before
  }

  lemma {:induction false} BucketValues(rows: seq<Row>, start: int, key: Key, quantity: Row -> Option<real>)
    requires start % 900_000 == 0 && forall row :: ValueOf(row, key) == quantity(row)
    ensures Values(rows, start, key) == InQuarter(rows, start, quantity)
  {
    if rows != [] {
      var n := |rows| - 1;
      BucketValues(rows[..n], start, key, quantity);
      ValuesSnoc(rows[..n], rows[n], start, key);
      BucketIsUnique(rows[n].recordedAt, start);
      assert rows == rows[..n] + [rows[n]];
    }
  }

  lemma PointAtQuarter(rows: seq<Row>, key: Key, p: SparkPoint)
    requires p in Series(rows, key)
    ensures p.start % 900_000 == 0 && IsMeanOf(Some(p.value), 1.0, Values(rows, p.start, key))
  {
    SeriesForMember(Starts(rows), rows, key, p);
    var row :| row in rows && BucketKey(row) == p.start;
    BucketIsUnique(row.recordedAt, p.start);
    OptionalMeanIsMean(Values(rows, p.start, key));
  }

  lemma PointIsMean(rows: seq<Row>, key: Key, p: SparkPoint, quantity: Row -> Option<real>)
    requires forall row :: ValueOf(row, key) == quantity(row)
    ensures p in Series(rows, key) ==> IsMeanOf(Some(p.value), 1.0, InQuarter(rows, p.start, quantity))
  {
    if p in Series(rows, key) {
      PointAtQuarter(rows, key, p);
      BucketValues(rows, p.start, key, quantity);
    }
  }

  function OrNothing(x: Option<real>): real {
    if x.Some? then x.value else 0.0
  }

  /** What the points of the four series are means of, over the readings of their quarter hour: solar
      production, consumption, grid export less import, with zero for what is missing, and the battery's
      state of charge over the readings that have one. */
  lemma SeriesFigures(rows: seq<Row>, p: SparkPoint)
    ensures p in Series(rows, Solar) ==>
              IsMeanOf(Some(p.value), 1.0, InQuarter(rows, p.start, (row: Row) => Some(OrNothing(row.solar))))
    ensures p in Series(rows, House) ==>
              IsMeanOf(Some(p.value), 1.0, InQuarter(rows, p.start, (row: Row) => Some(OrNothing(row.consumption))))
    ensures p in Series(rows, Grid) ==>
              IsMeanOf(Some(p.value), 1.0,
                       InQuarter(rows, p.start,
                                 (row: Row) => Some(OrNothing(row.gridExport) - OrNothing(row.gridImport))))
    ensures p in Series(rows, Battery) ==>
              IsMeanOf(Some(p.value), 1.0, InQuarter(rows, p.start, (row: Row) => row.batterySoc))
  {
    PointIsMean(rows, Solar, p, (row: Row) => Some(OrNothing(row.solar)));
    PointIsMean(rows, House, p, (row: Row) => Some(OrNothing(row.consumption)));
    PointIsMean(rows, Grid, p, (row: Row) => Some(OrNothing(row.gridExport) - OrNothing(row.gridImport)));
    PointIsMean(rows, Battery, p, (row: Row) => row.batterySoc);
  }
}
