/** The market price endpoint: hourly roll-up of quarter-hour periods and the summary figures.
    Times are whole microseconds since the epoch in UTC, prices unrounded reals. */
module Prices {
  import opened Collections
  import opened Ordering
  import opened Grouping
  import opened Averages

  datatype Period = Period(start: int, spotSek: Option<real>, importSek: Option<real>, exportSek: Option<real>)

  datatype Point = Point(timestamp: int, spotEur: real, allInEur: Option<real>,
                         spotSek: Option<real>, importSek: Option<real>, exportSek: Option<real>)

  const HOUR := 3_600_000_000

  /** `align_period_start(ts, interval_minutes=60)` */
  function HourOf(t: int): int {
    t - t % HOUR
  }

  function HourKey(p: Period): int {
    HourOf(p.start)
  }

  function SpotOf(p: Period): Option<real> {
    p.spotSek
  }

  function ImportOf(p: Period): Option<real> {
    p.importSek
  }

  function ExportOf(p: Period): Option<real> {
    p.exportSek
  }

  /** `sek_to_eur`: division by the configured rate, which is positive. */
  function SekToEur(sek: real, rate: real): real
    requires rate > 0.0
  {
    sek / rate
  }

  function OptionalEur(sek: Option<real>, rate: real): Option<real>
    requires rate > 0.0
  {
    if sek.Some? then Some(SekToEur(sek.value, rate)) else None
  }

  function PeriodToPoint(p: Period, rate: real): Option<Point>
    requires rate > 0.0
  {
    if p.spotSek.None? then None
    else Some(Point(p.start, SekToEur(p.spotSek.value, rate), OptionalEur(p.importSek, rate),
                    p.spotSek, p.importSek, p.exportSek))
  }

  // ----- the hourly roll-up -----

  function HourPoint(hour: int, bucket: seq<Period>, rate: real): Point
    requires rate > 0.0 && Present(bucket, SpotOf) != []
  {
    var spot, imported := Mean(Present(bucket, SpotOf)), OptionalMean(Present(bucket, ImportOf));
    Point(hour, SekToEur(spot, rate), OptionalEur(imported, rate), Some(spot), imported,
          OptionalMean(Present(bucket, ExportOf)))
  }

  function Bucket(periods: seq<Period>, hour: int): seq<Period> {
    Group(periods, HourKey, hour)
  }

  /** The points of the listed hours, leaving out hours without any spot price. */
  function PointsFor(hours: seq<int>, periods: seq<Period>, rate: real): seq<Point>
    requires rate > 0.0
  {
    if hours == [] then []
    else
      var hour, rest := hours[|hours| - 1], PointsFor(hours[..|hours| - 1], periods, rate);
      if Present(Bucket(periods, hour), SpotOf) == [] then rest
      else rest + [HourPoint(hour, Bucket(periods, hour), rate)]
  }

  function Hours(periods: seq<Period>): seq<int> {
    SortInts(KeysOf(periods, HourKey))
  }

  function Rollup(periods: seq<Period>, rate: real): seq<Point>
    requires rate > 0.0
  {
    PointsFor(Hours(periods), periods, rate)
  }

  method RollupHourly(periods: seq<Period>, rate: real) returns (points: seq<Point>)
    requires rate > 0.0
    ensures points == Rollup(periods, rate)
  {
    var buckets := BucketByHour(periods);
    points := AverageBuckets(buckets, periods, rate);
  }

  /** The first loop: `buckets.setdefault(hour_start, []).append(period)` */
  method BucketByHour(periods: seq<Period>) returns (buckets: map<int, seq<Period>>)
    ensures buckets.Keys == KeysOf(periods, HourKey)
    ensures forall hour :: hour in buckets ==> buckets[hour] == Bucket(periods, hour)
  {
    buckets := map[];
    for i := 0 to |periods|
      invariant buckets == GroupBy(periods[..i], HourKey)
    {
      GroupBySnoc(periods[..i], periods[i], HourKey);
      assert periods[..i + 1] == periods[..i] + [periods[i]];
      buckets := Append(buckets, HourOf(periods[i].start), periods[i]);
    }
    assert periods[..|periods|] == periods;
  }

  /** The second loop: one point per bucket with a spot price, in the order of the hours. */
  method AverageBuckets(buckets: map<int, seq<Period>>, ghost periods: seq<Period>, rate: real)
    returns (points: seq<Point>)
    requires rate > 0.0 && SortInts(buckets.Keys) == Hours(periods)
    requires forall hour :: hour in buckets ==> buckets[hour] == Bucket(periods, hour)
    ensures points == Rollup(periods, rate)
  {
    points := [];
    var hours := SortInts(buckets.Keys);
    var i := 0;
    while i < |hours|
      invariant 0 <= i <= |hours| && points == PointsFor(hours[..i], periods, rate)
    {
      points := AddHour(points, hours, i, buckets, periods, rate);
      i := i + 1;
    }
    assert hours[..i] == hours;
  }

  /** The body of that loop for one hour. */
  method AddHour(before: seq<Point>, hours: seq<int>, i: nat, buckets: map<int, seq<Period>>,
                 ghost periods: seq<Period>, rate: real)
    returns (points: seq<Point>)
    requires rate > 0.0 && i < |hours| && hours[i] in buckets && buckets[hours[i]] == Bucket(periods, hours[i])
    requires before == PointsFor(hours[..i], periods, rate)
    ensures points == PointsFor(hours[..i + 1], periods, rate)
  {
    var hour := hours[i];
    PointsForSnoc(hours[..i], hour, periods, rate);
    assert hours[..i + 1] == hours[..i] + [hour];
    points := if Present(buckets[hour], SpotOf) == [] then before else before + [HourPoint(hour, buckets[hour], rate)];
  }

  lemma PointsForSnoc(hours: seq<int>, hour: int, periods: seq<Period>, rate: real)
    requires rate > 0.0
    ensures PointsFor(hours + [hour], periods, rate)
         == if Present(Bucket(periods, hour), SpotOf) == [] then PointsFor(hours, periods, rate)
            else PointsFor(hours, periods, rate) + [HourPoint(hour, Bucket(periods, hour), rate)]
  {
    assert (hours + [hour])[..|hours|] == hours;
  }

  lemma {:induction false} PointsForMember(hours: seq<int>, periods: seq<Period>, rate: real, q: Point)
    requires rate > 0.0
    ensures q in PointsFor(hours, periods, rate)
       <==> && q.timestamp in hours && Present(Bucket(periods, q.timestamp), SpotOf) != []
            && q == HourPoint(q.timestamp, Bucket(periods, q.timestamp), rate)
  {
    if hours != [] {
      SnocCases(hours);
      PointsForMember(hours[..|hours| - 1], periods, rate, q);
    }
  }

  ghost predicate InOrder(points: seq<Point>) {
    forall i, j :: 0 <= i < j < |points| ==> points[i].timestamp < points[j].timestamp
  }

  lemma {:induction false} PointsIncrease(hours: seq<int>, periods: seq<Period>, rate: real)
    requires rate > 0.0 && forall i, j :: 0 <= i < j < |hours| ==> hours[i] < hours[j]
    ensures InOrder(PointsFor(hours, periods, rate))
  {
    if hours != [] {
      var init := hours[..|hours| - 1];
      PointsIncrease(init, periods, rate);
      var points := PointsFor(init, periods, rate);
      forall i | 0 <= i < |points|
        ensures points[i].timestamp < hours[|hours| - 1]
      {
        PointsForMember(init, periods, rate, points[i]);
      }
    }
  }

  ghost predicate PricedIn(p: Period, hour: int) {
    p.spotSek.Some? && hour <= p.start < hour + 3_600_000_000
  }

  lemma PointNeedsPrice(periods: seq<Period>, rate: real, q: Point) returns (p: Period)
    requires rate > 0.0 && q in Rollup(periods, rate)
    ensures q.timestamp % HOUR == 0 && p in periods && PricedIn(p, q.timestamp)
  {
    var bucket := Bucket(periods, q.timestamp);
    PointsForMember(Hours(periods), periods, rate, q);
    var x := Present(bucket, SpotOf)[0];
    PresentMember(bucket, SpotOf, x);
    p :| p in bucket && SpotOf(p) == Some(x);
    GroupMember(periods, HourKey, q.timestamp, p);
    HourIsUnique(p.start, q.timestamp);
  }

  lemma PriceMakesPoint(periods: seq<Period>, rate: real, p: Period, hour: int) returns (q: Point)
    requires rate > 0.0 && p in periods && hour % HOUR == 0 && PricedIn(p, hour)
    ensures q in Rollup(periods, rate) && q.timestamp == hour
  {
    var bucket := Bucket(periods, hour);
    HourIsUnique(p.start, hour);
    GroupMember(periods, HourKey, hour, p);
    PresentMember(bucket, SpotOf, p.spotSek.value);
    q := HourPoint(hour, bucket, rate);
    assert HourKey(p) in KeysOf(periods, HourKey);
    PointsForMember(Hours(periods), periods, rate, q);
  }

  /** An hour has a point exactly when it is a whole hour that contains a period with a spot price;
      every period lies in the one hour that starts at most an hour before it. */
  lemma RollupTimes(periods: seq<Period>, rate: real, hour: int)
    requires rate > 0.0
    ensures (exists q :: q in Rollup(periods, rate) && q.timestamp == hour)
       <==> hour % 3_600_000_000 == 0 && exists p :: p in periods && PricedIn(p, hour)
  {
    if q :| q in Rollup(periods, rate) && q.timestamp == hour {
      var _ := PointNeedsPrice(periods, rate, q);
    }
    if p :| hour % HOUR == 0 && p in periods && PricedIn(p, hour) {
      var _ := PriceMakesPoint(periods, rate, p, hour);
    }
  }

  /** The points' hours are strictly increasing. */
  lemma RollupIncreases(periods: seq<Period>, rate: real)
    requires rate > 0.0
    ensures InOrder(Rollup(periods, rate))
  {
    PointsIncrease(Hours(periods), periods, rate);
  }

  lemma HourIsUnique(t: int, hour: int)
    ensures HourOf(t) == hour <==> hour % 3_600_000_000 == 0 && hour <= t < hour + 3_600_000_000
  {
  }

  /** The present values of a field among the periods of the hour that starts at `hour`, in order. */
  function InHour(periods: seq<Period>, hour: int, field: Period -> Option<real>): seq<real> {
    if periods == [] then []
    else
      var p, before := periods[|periods| - 1], InHour(periods[..|periods| - 1], hour, field);
      if hour <= p.start < hour + 3_600_000_000 && field(p).Some? then before + [field(p).value] else before
  }

  /** There is such a value exactly when some period of the hour has one. */
  lemma {:induction false} InHourIff(periods: seq<Period>, hour: int, field: Period -> Option<real>)
    ensures InHour(periods, hour, field) != []
       <==> exists i :: 0 <= i < |periods| && hour <= periods[i].start < hour + 3_600_000_000 && field(periods[i]).Some?
  {
    if periods != [] {
      InHourIff(periods[..|periods| - 1], hour, field);
    }
  }

  lemma {:induction false} BucketValues(periods: seq<Period>, hour: int, field: Period -> Option<real>,
                                        same: Period -> Option<real>)
    requires hour % 3_600_000_000 == 0 && forall p :: field(p) == same(p)
    ensures Present(Bucket(periods, hour), field) == InHour(periods, hour, same)
  {
    if periods != [] {
      var init, p := periods[..|periods| - 1], periods[|periods| - 1];
      BucketValues(init, hour, field, same);
      HourIsUnique(p.start, hour);
    }
  }

  lemma DivideAndMultiply(x: real, rate: real)
    requires rate > 0.0
    ensures SekToEur(x, rate) * rate == x
  {
  }

  lemma PriceIsMean(xs: seq<real>, rate: real)
    requires rate > 0.0
    ensures IsMeanOf(OptionalMean(xs), 1.0, xs) && IsMeanOf(OptionalEur(OptionalMean(xs), rate), rate, xs)
  {
    OptionalMeanIsMean(xs);
    if xs != [] {
      DivideAndMultiply(Mean(xs), rate);
    }
  }

  lemma HourMeans(periods: seq<Period>, rate: real, q: Point)
    requires rate > 0.0 && q in Rollup(periods, rate)
    ensures InHour(periods, q.timestamp, (p: Period) => p.spotSek) != []
    ensures q.spotSek == OptionalMean(InHour(periods, q.timestamp, (p: Period) => p.spotSek))
    ensures Some(q.spotEur) == OptionalEur(q.spotSek, rate) && q.allInEur == OptionalEur(q.importSek, rate)
    ensures q.importSek == OptionalMean(InHour(periods, q.timestamp, (p: Period) => p.importSek))
    ensures q.exportSek == OptionalMean(InHour(periods, q.timestamp, (p: Period) => p.exportSek))
  {
    PointsForMember(Hours(periods), periods, rate, q);
    var _ := PointNeedsPrice(periods, rate, q);
    BucketValues(periods, q.timestamp, SpotOf, (p: Period) => p.spotSek);
    BucketValues(periods, q.timestamp, ImportOf, (p: Period) => p.importSek);
    BucketValues(periods, q.timestamp, ExportOf, (p: Period) => p.exportSek);
  }

  /** The figures of a point are the means over the periods of its hour that have the price in question;
      those in EUR, divided by the rate, are of the spot and the import price. */
  lemma HourFigures(periods: seq<Period>, rate: real, q: Point)
    requires rate > 0.0 && q in Rollup(periods, rate)
    ensures var spots := InHour(periods, q.timestamp, (p: Period) => p.spotSek);
            IsMeanOf(q.spotSek, 1.0, spots) && IsMeanOf(Some(q.spotEur), rate, spots)
    ensures var imports := InHour(periods, q.timestamp, (p: Period) => p.importSek);
            IsMeanOf(q.importSek, 1.0, imports) && IsMeanOf(q.allInEur, rate, imports)
    ensures IsMeanOf(q.exportSek, 1.0, InHour(periods, q.timestamp, (p: Period) => p.exportSek))
  {
    HourMeans(periods, rate, q);
    PriceIsMean(InHour(periods, q.timestamp, (p: Period) => p.spotSek), rate);
    PriceIsMean(InHour(periods, q.timestamp, (p: Period) => p.importSek), rate);
    PriceIsMean(InHour(periods, q.timestamp, (p: Period) => p.exportSek), rate);
  }

  /** The point of one period: there is one exactly when the period has a spot price. */
  lemma PointOfPeriod(p: Period, rate: real)
    requires rate > 0.0
    ensures PeriodToPoint(p, rate).Some? <==> p.spotSek.Some?
    ensures PeriodToPoint(p, rate).Some? ==>
              var q := PeriodToPoint(p, rate).value;
              && q.timestamp == p.start && q.spotSek == p.spotSek && q.importSek == p.importSek
              && q.exportSek == p.exportSek && q.spotEur * rate == p.spotSek.value
              && (q.allInEur.Some? <==> p.importSek.Some?)
              && (q.allInEur.Some? ==> q.allInEur.value * rate == p.importSek.value)
  {
    if p.spotSek.Some? {
      DivideAndMultiply(p.spotSek.value, rate);
    }
    if p.importSek.Some? {
      DivideAndMultiply(p.importSek.value, rate);
    }
  }

  // ----- conservation -----

  /** The points' spot prices, each weighted by the number of spot prices it averages. */
  function WeightedSpots(points: seq<Point>, periods: seq<Period>): real {
    if points == [] then 0.0
    else
      var q := points[|points| - 1];
      WeightedSpots(points[..|points| - 1], periods)
      + Weight(q.spotSek, |Present(Bucket(periods, q.timestamp), SpotOf)|)
  }

  lemma WeightedSpotsSnoc(points: seq<Point>, q: Point, periods: seq<Period>)
    ensures WeightedSpots(points + [q], periods)
         == WeightedSpots(points, periods)
            + Weight(q.spotSek, |Present(Bucket(periods, q.timestamp), SpotOf)|)
  {
    assert (points + [q])[..|points|] == points;
  }

  lemma HourSpots(hour: int, bucket: seq<Period>, rate: real)
    requires rate > 0.0
    ensures Sum(Map(bucket, OrZero(SpotOf)))
         == if Present(bucket, SpotOf) == [] then 0.0
            else Weight(HourPoint(hour, bucket, rate).spotSek, |Present(bucket, SpotOf)|)
  {
    SumOfPresent(bucket, SpotOf);
    WeightOfMean(Present(bucket, SpotOf));
  }

  lemma {:induction false} SpotsOfHours(hours: seq<int>, periods: seq<Period>, rate: real)
    requires rate > 0.0
    ensures WeightedSpots(PointsFor(hours, periods, rate), periods)
         == GroupTotal(hours, periods, HourKey, OrZero(SpotOf))
  {
    if hours != [] {
      var init, hour := hours[..|hours| - 1], hours[|hours| - 1];
      var bucket := Bucket(periods, hour);
      SpotsOfHours(init, periods, rate);
      HourSpots(hour, bucket, rate);
      if Present(bucket, SpotOf) != [] {
        WeightedSpotsSnoc(PointsFor(init, periods, rate), HourPoint(hour, bucket, rate), periods);
      }
    }
  }

  lemma HoursCover(periods: seq<Period>)
    ensures Distinct(Hours(periods)) && forall p :: p in periods ==> HourKey(p) in Hours(periods)
  {
    forall p | p in periods
      ensures HourKey(p) in Hours(periods)
    {
      assert HourKey(p) in KeysOf(periods, HourKey);
    }
  }

  /** Conservation: over all hours, mean times count adds up to the sum of all spot prices. */
  lemma SpotsAreConserved(periods: seq<Period>, rate: real)
    requires rate > 0.0
    ensures WeightedSpots(Rollup(periods, rate), periods) == Sum(Present(periods, SpotOf))
  {
    SpotsOfHours(Hours(periods), periods, rate);
    HoursCover(periods);
    GroupTotalIsTotal(Hours(periods), periods, HourKey, OrZero(SpotOf));
    SumOfPresent(periods, SpotOf);
  }

  /** The points' import prices, each weighted by the number of import prices it averages. */
  function WeightedImports(points: seq<Point>, periods: seq<Period>): real {
    if points == [] then 0.0
    else
      var q := points[|points| - 1];
      WeightedImports(points[..|points| - 1], periods)
      + Weight(q.importSek, |Present(Bucket(periods, q.timestamp), ImportOf)|)
  }

  /** The import prices of hours that have no spot price, which the roll-up drops. */
  function DroppedImports(hours: seq<int>, periods: seq<Period>): real {
    if hours == [] then 0.0
    else
      var bucket := Bucket(periods, hours[|hours| - 1]);
      DroppedImports(hours[..|hours| - 1], periods)
      + if Present(bucket, SpotOf) == [] then Sum(Present(bucket, ImportOf)) else 0.0
  }

  lemma WeightedImportsSnoc(points: seq<Point>, q: Point, periods: seq<Period>)
    ensures WeightedImports(points + [q], periods)
         == WeightedImports(points, periods)
            + Weight(q.importSek, |Present(Bucket(periods, q.timestamp), ImportOf)|)
  {
    assert (points + [q])[..|points|] == points;
  }

  lemma HourImports(hour: int, bucket: seq<Period>, rate: real)
    requires rate > 0.0
    ensures Sum(Map(bucket, OrZero(ImportOf)))
         == if Present(bucket, SpotOf) == [] then Sum(Present(bucket, ImportOf))
            else Weight(HourPoint(hour, bucket, rate).importSek, |Present(bucket, ImportOf)|)
  {
    SumOfPresent(bucket, ImportOf);
    WeightOfMean(Present(bucket, ImportOf));
  }

  lemma {:induction false} ImportsOfHours(hours: seq<int>, periods: seq<Period>, rate: real)
    requires rate > 0.0
    ensures WeightedImports(PointsFor(hours, periods, rate), periods) + DroppedImports(hours, periods)
         == GroupTotal(hours, periods, HourKey, OrZero(ImportOf))
  {
    if hours != [] {
      var init, hour := hours[..|hours| - 1], hours[|hours| - 1];
      var bucket := Bucket(periods, hour);
      ImportsOfHours(init, periods, rate);
      HourImports(hour, bucket, rate);
      if Present(bucket, SpotOf) != [] {
        WeightedImportsSnoc(PointsFor(init, periods, rate), HourPoint(hour, bucket, rate), periods);
      }
    }
  }

  /** Import prices are conserved up to those of hours without a spot price, which vanish. */
  lemma ImportsAreConservedUpToUnpricedHours(periods: seq<Period>, rate: real)
    requires rate > 0.0
    ensures WeightedImports(Rollup(periods, rate), periods) + DroppedImports(Hours(periods), periods)
         == Sum(Present(periods, ImportOf))
  {
    ImportsOfHours(Hours(periods), periods, rate);
    HoursCover(periods);
    GroupTotalIsTotal(Hours(periods), periods, HourKey, OrZero(ImportOf));
    SumOfPresent(periods, ImportOf);
  }

  /** Every period with an import price lies in an hour with a spot price. */
  ghost predicate ImportsArePriced(periods: seq<Period>) {
    forall p :: p in periods && ImportOf(p).Some? ==> Present(Bucket(periods, HourKey(p)), SpotOf) != []
  }

  ghost predicate PositiveImports(periods: seq<Period>) {
    forall p :: p in periods && ImportOf(p).Some? ==> ImportOf(p).value > 0.0
  }

  lemma {:induction false} SumOfPositives(xs: seq<real>)
    requires forall i :: 0 <= i < |xs| ==> xs[i] > 0.0
    ensures Sum(xs) >= 0.0 && (Sum(xs) == 0.0 <==> xs == [])
  {
    if xs != [] {
      SumOfPositives(xs[..|xs| - 1]);
    }
  }

  lemma BucketImports(periods: seq<Period>, hour: int)
    ensures Present(Bucket(periods, hour), ImportOf) != []
       <==> exists p :: p in periods && HourKey(p) == hour && ImportOf(p).Some?
    ensures PositiveImports(periods) ==>
              var xs := Present(Bucket(periods, hour), ImportOf);
              forall i :: 0 <= i < |xs| ==> xs[i] > 0.0
  {
    var xs := Present(Bucket(periods, hour), ImportOf);
    forall x | x in xs
      ensures exists p :: p in periods && HourKey(p) == hour && ImportOf(p) == Some(x)
    {
      PresentMember(Bucket(periods, hour), ImportOf, x);
      var p :| p in Bucket(periods, hour) && ImportOf(p) == Some(x);
      GroupMember(periods, HourKey, hour, p);
    }
    assert forall i :: 0 <= i < |xs| ==> xs[i] in xs;
    assert xs != [] ==> xs[0] in xs;
    if p :| p in periods && HourKey(p) == hour && ImportOf(p).Some? {
      GroupMember(periods, HourKey, hour, p);
      PresentMember(Bucket(periods, hour), ImportOf, ImportOf(p).value);
    }
  }

  /** The hour has import prices but no spot price. */
  ghost predicate Vanishes(periods: seq<Period>, hour: int) {
    Present(Bucket(periods, hour), SpotOf) == [] && Present(Bucket(periods, hour), ImportOf) != []
  }

  lemma {:induction false} NothingDroppedIff(hours: seq<int>, periods: seq<Period>)
    ensures (forall hour :: hour in hours ==> !Vanishes(periods, hour)) ==> DroppedImports(hours, periods) == 0.0
    ensures PositiveImports(periods) ==>
              && DroppedImports(hours, periods) >= 0.0
              && (DroppedImports(hours, periods) == 0.0 <==> forall hour :: hour in hours ==> !Vanishes(periods, hour))
  {
    if hours != [] {
      var hour := hours[|hours| - 1];
      SnocCases(hours);
      NothingDroppedIff(hours[..|hours| - 1], periods);
      BucketImports(periods, hour);
      if PositiveImports(periods) {
        SumOfPositives(Present(Bucket(periods, hour), ImportOf));
      }
    }
  }

  lemma PricedIffNoneVanishes(periods: seq<Period>)
    ensures ImportsArePriced(periods) <==> forall hour :: hour in Hours(periods) ==> !Vanishes(periods, hour)
  {
    HoursCover(periods);
    forall hour
      ensures Vanishes(periods, hour)
         <==> && Present(Bucket(periods, hour), SpotOf) == []
              && exists p :: p in periods && HourKey(p) == hour && ImportOf(p).Some?
    {
      BucketImports(periods, hour);
    }
  }

  /** Import prices are conserved when every one of them lies in an hour with a spot price; and if
      they are positive, only then: otherwise some of the total is lost. */
  lemma ImportsAreConservedIff(periods: seq<Period>, rate: real)
    requires rate > 0.0
    ensures ImportsArePriced(periods) ==>
              WeightedImports(Rollup(periods, rate), periods) == Sum(Present(periods, ImportOf))
    ensures PositiveImports(periods) ==>
              (WeightedImports(Rollup(periods, rate), periods) == Sum(Present(periods, ImportOf))
               <==> ImportsArePriced(periods))
    ensures PositiveImports(periods) ==>
              WeightedImports(Rollup(periods, rate), periods) <= Sum(Present(periods, ImportOf))
  {
    ImportsAreConservedUpToUnpricedHours(periods, rate);
    PricedIffNoneVanishes(periods);
    NothingDroppedIff(Hours(periods), periods);
  }

  /** Two quarter hours with import prices and no spot price: the roll-up is empty. */
  lemma UnpricedHourVanishes()
    ensures var periods := [Period(0, None, Some(1.0), None), Period(900_000_000, None, Some(2.0), None)];
            Rollup(periods, 11.0) == [] && Sum(Present(periods, ImportOf)) == 3.0
  {
    var periods := [Period(0, None, Some(1.0), None), Period(900_000_000, None, Some(2.0), None)];
    assert periods[..1] == [periods[0]] && periods[..1][..0] == [];
    assert Present(periods[..1], ImportOf) == [1.0];
    assert Present(periods, ImportOf) == [1.0, 2.0];
    assert [1.0, 2.0][..1] == [1.0] && [1.0][..0] == [];
    if Rollup(periods, 11.0) != [] {
      var _ := PointNeedsPrice(periods, 11.0, Rollup(periods, 11.0)[0]);
    }
  }

  /** Narrowing: whatever bounds hold for the spot prices of the quarter-hour points hold for those
      of the hourly points, in SEK and in EUR. */
  lemma RollupNarrows(periods: seq<Period>, rate: real, lo: real, hi: real, q: Point)
    requires rate > 0.0 && q in Rollup(periods, rate)
    requires forall p :: p in periods && PeriodToPoint(p, rate).Some? ==>
               lo <= PeriodToPoint(p, rate).value.spotSek.GetOr(0.0) <= hi
    ensures q.spotSek.Some? && lo <= q.spotSek.value <= hi
    ensures lo / rate <= q.spotEur <= hi / rate
  {
    PointsForMember(Hours(periods), periods, rate, q);
    var bucket := Bucket(periods, q.timestamp);
    forall x | x in Present(bucket, SpotOf)
      ensures lo <= x <= hi
    {
      PresentMember(bucket, SpotOf, x);
      var p :| p in bucket && SpotOf(p) == Some(x);
      GroupMember(periods, HourKey, q.timestamp, p);
      assert PeriodToPoint(p, rate).Some?;
    }
    MeanBounds(Present(bucket, SpotOf), lo, hi);
    DivideMonotone(lo, q.spotSek.value, rate);
    DivideMonotone(q.spotSek.value, hi, rate);
  }

  lemma DivideMonotone(a: real, b: real, rate: real)
    requires a <= b && rate > 0.0
    ensures a / rate <= b / rate
  {
  }

  // ----- the summary -----

  function Distance(q: Point, now: int): (d: int)
    ensures d >= 0 && (now + d == q.timestamp || now - d == q.timestamp)
  {
    if q.timestamp >= now then q.timestamp - now else now - q.timestamp
  }

  /** `min(points, key=...)`: the first point at the smallest distance. */
  function ClosestIndex(points: seq<Point>, now: int): (r: nat)
    requires points != []
    ensures r < |points|
    ensures forall i :: 0 <= i < |points| ==> Distance(points[r], now) <= Distance(points[i], now)
    ensures forall i :: 0 <= i < r ==> Distance(points[i], now) > Distance(points[r], now)
  {
    if |points| == 1 then 0
    else
      var r := ClosestIndex(points[..|points| - 1], now);
      if Distance(points[|points| - 1], now) < Distance(points[r], now) then |points| - 1 else r
  }

  /** The r-th point is the first at the smallest distance. */
  ghost predicate IsClosest(points: seq<Point>, now: int, r: nat) {
    && r < |points|
    && (forall i :: 0 <= i < |points| ==> Distance(points[r], now) <= Distance(points[i], now))
    && (forall i :: 0 <= i < r ==> Distance(points[i], now) > Distance(points[r], now))
  }

  function ClosestPoint(points: seq<Point>, now: int): Option<Point> {
    if points == [] then None else Some(points[ClosestIndex(points, now)])
  }

  function MaxOf(xs: seq<real>): (r: real)
    requires xs != []
    ensures r in xs && forall x :: x in xs ==> x <= r
  {
    if |xs| == 1 then xs[0]
    else
      assert xs == [xs[0]] + xs[1..];
      var m := MaxOf(xs[1..]);
      if m > xs[0] then m else xs[0]
  }

  function MinOf(xs: seq<real>): (r: real)
    requires xs != []
    ensures r in xs && forall x :: x in xs ==> r <= x
  {
    if |xs| == 1 then xs[0]
    else
      assert xs == [xs[0]] + xs[1..];
      var m := MinOf(xs[1..]);
      if m < xs[0] then m else xs[0]
  }

  datatype Summary = Summary(current: Option<real>, average: Option<real>, highest: Option<real>, lowest: Option<real>)

  /** `[p.all_in_eur_kwh for p in points if p.all_in_eur_kwh is not None]` */
  function AllIns(points: seq<Point>): seq<real> {
    Present(points, (q: Point) => q.allInEur)
  }

  function SummarizeEur(points: seq<Point>, now: int): Summary {
    if points == [] then Summary(None, None, None, None)
    else
      var current := ClosestPoint(points, now).value.spotEur;
      var allIns := AllIns(points);
      if allIns == [] then Summary(Some(current), None, None, None)
      else Summary(Some(current), Some(Mean(allIns)), Some(MaxOf(allIns)), Some(MinOf(allIns)))
  }

  /** Each point's all-in price is counted once. */
  lemma AllInsAre(points: seq<Point>) returns (at: seq<nat>)
    ensures Increasing(at) && forall n: nat :: n in at <==> n < |points| && points[n].allInEur.Some?
    ensures |at| == |AllIns(points)|
    ensures forall k :: 0 <= k < |at| ==> at[k] in at && points[at[k]].allInEur == Some(AllIns(points)[k])
  {
    at := PresentPositions(points, (q: Point) => q.allInEur);
  }

  lemma AllInsMember(points: seq<Point>, x: real)
    ensures x in AllIns(points) <==> exists i :: 0 <= i < |points| && points[i].allInEur == Some(x)
  {
    PresentMember(points, (q: Point) => q.allInEur, x);
    if i :| 0 <= i < |points| && points[i].allInEur == Some(x) {
      assert points[i] in points;
    }
  }

  /** `highest` and `lowest` are all-in prices of points, and bound those of all points. */
  ghost predicate Extremes(points: seq<Point>, highest: real, lowest: real) {
    && (exists i :: 0 <= i < |points| && points[i].allInEur == Some(highest))
    && (exists i :: 0 <= i < |points| && points[i].allInEur == Some(lowest))
    && (forall i :: 0 <= i < |points| && points[i].allInEur.Some? ==> lowest <= points[i].allInEur.value <= highest)
  }

  lemma SummaryExtremes(points: seq<Point>)
    requires AllIns(points) != []
    ensures Extremes(points, MaxOf(AllIns(points)), MinOf(AllIns(points)))
  {
    AllInsMember(points, MaxOf(AllIns(points)));
    AllInsMember(points, MinOf(AllIns(points)));
    forall i | 0 <= i < |points| && points[i].allInEur.Some?
      ensures points[i].allInEur.value in AllIns(points)
    {
      AllInsMember(points, points[i].allInEur.value);
    }
  }

  /** The current figure is that of the earliest closest point; average, highest and lowest come
      together, in order, and exactly when some point has an all-in price: the mean of those prices,
      and the ones among them that bound all others. */
  lemma EurSummaryIsOrdered(points: seq<Point>, now: int)
    ensures var s := SummarizeEur(points, now);
            && (s.current.Some? <==> points != [])
            && (s.current.Some? ==> exists r: nat :: IsClosest(points, now, r) && s.current.value == points[r].spotEur)
            && (s.average.Some? <==> exists i :: 0 <= i < |points| && points[i].allInEur.Some?)
            && (s.average.Some? == s.highest.Some? == s.lowest.Some?)
            && (s.average.Some? ==> s.lowest.value <= s.average.value <= s.highest.value)
            && (s.average.Some? ==> AllIns(points) != [] && s.average.value == Mean(AllIns(points)))
            && (s.average.Some? ==> Extremes(points, s.highest.value, s.lowest.value))
  {
    var allIns := AllIns(points);
    AllInsIff(points);
    assert points != [] ==> IsClosest(points, now, ClosestIndex(points, now));
    if allIns != [] {
      MeanBounds(allIns, MinOf(allIns), MaxOf(allIns));
      SummaryExtremes(points);
    }
  }

  lemma AllInsIff(points: seq<Point>)
    ensures AllIns(points) != [] <==> exists i :: 0 <= i < |points| && points[i].allInEur.Some?
  {
    var at := AllInsAre(points);
    if i :| 0 <= i < |points| && points[i].allInEur.Some? {
      assert i in at;
    }
    assert at != [] ==> at[0] in at;
  }

  /** `current_import`: Python's `or` also skips a price of exactly zero. */
  function CurrentImport(q: Point): Option<real> {
    if q.importSek.Some? && q.importSek.value != 0.0 then q.importSek else q.spotSek
  }

  /** The reported import price is the closest point's own, when it has one, exactly when that price is
      not zero or equals the spot price anyway; otherwise it is the spot price. */
  lemma CurrentImportIsOwnIff(q: Point)
    ensures q.importSek.Some? ==>
              (CurrentImport(q) == q.importSek <==> q.importSek.value != 0.0 || q.spotSek == q.importSek)
    ensures CurrentImport(q) == q.importSek || CurrentImport(q) == q.spotSek
    ensures q.importSek.None? ==> CurrentImport(q) == q.spotSek
    ensures q.spotSek.Some? ==> CurrentImport(q).Some?
  {
  }

  lemma FreeImportIsReportedAtSpot()
    ensures CurrentImport(Point(0, 0.1, Some(0.0), Some(1.0), Some(0.0), None)) == Some(1.0)
  {
  }
}
