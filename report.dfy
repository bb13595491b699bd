/**
 * The aggregation behind the dashboard's index page: per-record totals over
 * the four vehicle categories, the mean total per hour of day pooled across
 * calendar days, the fixed six-hour relabelling, and each category's share
 * of all counted vehicles.
 */
module Report {
  import opened Wrappers
  import opened Media
  import Counting
  import DetectVehicles

  datatype Category = Car | Motorcycle | Bus | Truck

  /** The category columns the page reads, in the order it lists them. */
  const ObjectTypes: seq<Category> := [Car, Motorcycle, Bus, Truck]

  function ColumnName(c: Category): string
  {
    match c
    case Car => "car"
    case Motorcycle => "motorcycle"
    case Bus => "bus"
    case Truck => "truck"
  }

  /** One stored record as the page reads it; a NULL count is `None`. */
  datatype Row = Row(
    date: DateTime,
    car: Option<nat>,
    motorcycle: Option<nat>,
    bus: Option<nat>,
    truck: Option<nat>)

  function Entry(row: Row, c: Category): Option<nat>
  {
    match c
    case Car => row.car
    case Motorcycle => row.motorcycle
    case Bus => row.bus
    case Truck => row.truck
  }

  /** What a cell adds to a sum that skips missing values. */
  function Value(o: Option<nat>): nat
  {
    if o.Some? then o.value else 0
  }

  /** The row's `total`: its four category counts added, NULLs counting zero. */
  function Total(row: Row): nat
  {
    Value(row.car) + Value(row.motorcycle) + Value(row.bus) + Value(row.truck)
  }

  /** Every category's count is part of the total, and a zero total has no vehicle in it. */
  lemma TotalBounds(row: Row)
    ensures forall c :: Value(Entry(row, c)) <= Total(row)
    ensures Total(row) == 0 <==> forall c :: Value(Entry(row, c)) == 0
  {
    forall c
      ensures Value(Entry(row, c)) <= Total(row)
    {
      match c
      case Car =>
      case Motorcycle =>
      case Bus =>
      case Truck =>
    }
    if Total(row) > 0 {
      if Value(row.car) == 0 && Value(row.motorcycle) == 0 && Value(row.bus) == 0 {
        assert Value(Entry(row, Truck)) != 0;
      } else if Value(row.car) == 0 && Value(row.motorcycle) == 0 {
        assert Value(Entry(row, Bus)) != 0;
      } else if Value(row.car) == 0 {
        assert Value(Entry(row, Motorcycle)) != 0;
      } else {
        assert Value(Entry(row, Car)) != 0;
      }
    }
  }

  /** The sum of a row's cells over a list of categories. */
  function SumOver(row: Row, cs: seq<Category>): nat
  {
    if cs == [] then 0 else Value(Entry(row, cs[0])) + SumOver(row, cs[1..])
  }

  /** The total is the row-wise sum over the listed category columns. */
  lemma TotalIsRowSum(row: Row)
    ensures Total(row) == SumOver(row, ObjectTypes)
  {
    assert ObjectTypes[1..] == [Motorcycle, Bus, Truck];
    assert ObjectTypes[1..][1..] == [Bus, Truck];
    assert ObjectTypes[1..][1..][1..] == [Truck];
    assert ObjectTypes[1..][1..][1..][1..] == [];
    assert SumOver(row, [Truck]) == Value(row.truck);
    assert SumOver(row, [Bus, Truck]) == Value(row.bus) + Value(row.truck);
    assert SumOver(row, [Motorcycle, Bus, Truck]) ==
      Value(row.motorcycle) + Value(row.bus) + Value(row.truck);
  }

  /** The sum of the totals of all rows. */
  function Totals(rows: seq<Row>): nat
  {
    if rows == [] then 0 else Total(rows[0]) + Totals(rows[1..])
  }

  // ---------------------------------------------------------------------
  // Hourly means

  /** The number of rows captured in hour `h` of any day. */
  function HourCount(rows: seq<Row>, h: int): nat
  {
    if rows == [] then 0
    else (if rows[0].date.hour == h then 1 else 0) + HourCount(rows[1..], h)
  }

  /** The sum of the totals of the rows captured in hour `h` of any day. */
  function HourSum(rows: seq<Row>, h: int): nat
  {
    if rows == [] then 0
    else (if rows[0].date.hour == h then Total(rows[0]) else 0) + HourSum(rows[1..], h)
  }

  lemma {:induction false} HourCountPositive(rows: seq<Row>, h: int)
    ensures HourCount(rows, h) > 0 <==> exists i :: 0 <= i < |rows| && rows[i].date.hour == h
  {
    if rows != [] {
      HourCountPositive(rows[1..], h);
      if rows[0].date.hour != h && HourCount(rows, h) > 0 {
        var i :| 0 <= i < |rows[1..]| && rows[1..][i].date.hour == h;
        assert rows[i + 1].date.hour == h;
      }
      if rows[0].date.hour != h && exists i :: 0 <= i < |rows| && rows[i].date.hour == h {
        var i :| 0 <= i < |rows| && rows[i].date.hour == h;
        assert rows[1..][i - 1].date.hour == h;
      }
    }
  }

  /** An hour without records contributes nothing to the sum either. */
  lemma {:induction false} EmptyHourSum(rows: seq<Row>, h: int)
    requires HourCount(rows, h) == 0
    ensures HourSum(rows, h) == 0
  {
    if rows != [] {
      EmptyHourSum(rows[1..], h);
    }
  }

  /**
   * An exact quotient `num / den`. The page computes its means and shares in
   * floating point; here they are kept as the fractions they round.
   */
  datatype Fraction = Fraction(num: nat, den: nat)

  /** One point of the hourly series: an hour of day and the mean total in it. */
  datatype HourMean = HourMean(hour: Hour, mean: Fraction)

  /** The buckets for hours `h` to 23, in ascending order, skipping empty hours. */
  function BucketsFrom(rows: seq<Row>, h: nat): seq<HourMean>
    requires h <= 24
    decreases 24 - h
  {
    if h == 24 then []
    else if HourCount(rows, h) > 0 then
      [HourMean(h, Fraction(HourSum(rows, h), HourCount(rows, h)))] + BucketsFrom(rows, h + 1)
    else BucketsFrom(rows, h + 1)
  }

  /** Past an hour with records, the buckets are that hour's bucket followed by the rest. */
  lemma BucketsShift(rows: seq<Row>, h: nat)
    requires h < 24
    ensures var r, rest := BucketsFrom(rows, h), BucketsFrom(rows, h + 1);
      if HourCount(rows, h) > 0 then
        |r| == |rest| + 1 && r[0].hour == h && r[1..] == rest &&
        forall i :: 0 < i < |r| ==> r[i] == rest[i - 1]
      else r == rest
  {
  }

  /** Each bucket is an hour from `h` on that has records, holding that hour's sum over its count. */
  lemma {:induction false} BucketsSound(rows: seq<Row>, h: nat)
    requires h <= 24
    ensures var r := BucketsFrom(rows, h);
      forall i :: 0 <= i < |r| ==>
        h <= r[i].hour && HourCount(rows, r[i].hour) > 0 &&
        r[i].mean == Fraction(HourSum(rows, r[i].hour), HourCount(rows, r[i].hour))
    decreases 24 - h
  {
    if h < 24 {
      BucketsSound(rows, h + 1);
      BucketsShift(rows, h);
    }
  }

  /** The buckets ascend strictly by hour. */
  lemma {:induction false} BucketsAscending(rows: seq<Row>, h: nat)
    requires h <= 24
    ensures var r := BucketsFrom(rows, h);
      forall i, j :: 0 <= i < j < |r| ==> r[i].hour < r[j].hour
    decreases 24 - h
  {
    if h < 24 {
      BucketsAscending(rows, h + 1);
      BucketsSound(rows, h + 1);
      BucketsShift(rows, h);
    }
  }

  /** Every hour from `h` on that has records has a bucket: the one at position `i`. */
  lemma {:induction false} BucketsComplete(rows: seq<Row>, h: nat, g: Hour) returns (i: nat)
    requires h <= g && HourCount(rows, g) > 0
    ensures i < |BucketsFrom(rows, h)| && BucketsFrom(rows, h)[i].hour == g
    decreases 24 - h
  {
    var r := BucketsFrom(rows, h);
    BucketsShift(rows, h);
    if g == h {
      i := 0;
    } else {
      var k := BucketsComplete(rows, h + 1, g);
      i := if HourCount(rows, h) > 0 then k + 1 else k;
    }
  }

  /** The hour of bucket `i` has records. */
  lemma {:induction false} BucketHasRecords(rows: seq<Row>, h: nat, i: nat)
    requires h <= 24 && i < |BucketsFrom(rows, h)|
    ensures HourCount(rows, BucketsFrom(rows, h)[i].hour) > 0
    decreases 24 - h
  {
    BucketsShift(rows, h);
    if HourCount(rows, h) > 0 {
      if i > 0 {
        BucketHasRecords(rows, h + 1, i - 1);
      }
    } else {
      BucketHasRecords(rows, h + 1, i);
    }
  }

  /** From hour `h` on, the hours with buckets are exactly the hours with records. */
  lemma BucketsCover(rows: seq<Row>, h: nat)
    requires h <= 24
    ensures var r := BucketsFrom(rows, h);
      forall g: Hour :: h <= g ==> (HourCount(rows, g) > 0 <==> exists i :: 0 <= i < |r| && r[i].hour == g)
  {
    var r := BucketsFrom(rows, h);
    forall g: Hour | h <= g
      ensures HourCount(rows, g) > 0 <==> exists i :: 0 <= i < |r| && r[i].hour == g
    {
      if HourCount(rows, g) > 0 {
        var i := BucketsComplete(rows, h, g);
        assert r[i].hour == g;
      }
      if exists i :: 0 <= i < |r| && r[i].hour == g {
        var i :| 0 <= i < |r| && r[i].hour == g;
        BucketHasRecords(rows, h, i);
      }
    }
  }

  /** There are at most 24 buckets, since they ascend strictly by hour. */
  lemma BucketsBounded(rows: seq<Row>)
    ensures |BucketsFrom(rows, 0)| <= 24
  {
    var r := BucketsFrom(rows, 0);
    BucketsAscending(rows, 0);
    if |r| > 24 {
      AscendingHours(r, 24);
      assert false;
    }
  }

  lemma {:induction false} AscendingHours(r: seq<HourMean>, k: nat)
    requires forall i, j :: 0 <= i < j < |r| ==> r[i].hour < r[j].hour
    requires k < |r|
    ensures k <= r[k].hour
  {
    if k > 0 {
      AscendingHours(r, k - 1);
    }
  }

  /**
   * The mean total per hour of day, pooled over all days (`groupby(date.hour)
   * ['total'].mean()`): exactly one bucket per hour that has records, in
   * ascending hour order, each holding the sum of that hour's totals over
   * the number of its records.
   */
  function HourlyMeans(rows: seq<Row>): (r: seq<HourMean>)
    ensures forall i, j :: 0 <= i < j < |r| ==> r[i].hour < r[j].hour
    ensures forall i :: 0 <= i < |r| ==>
      HourCount(rows, r[i].hour) > 0 &&
      r[i].mean == Fraction(HourSum(rows, r[i].hour), HourCount(rows, r[i].hour))
    ensures forall g: Hour ::
      HourCount(rows, g) > 0 <==> exists i :: 0 <= i < |r| && r[i].hour == g
    ensures |r| <= 24
  {
    var r := BucketsFrom(rows, 0);
    BucketsSound(rows, 0);
    BucketsAscending(rows, 0);
    BucketsBounded(rows);
    BucketsCover(rows, 0);
    r
  }

  /** The numerators of a list of buckets, added. */
  function SumNums(bs: seq<HourMean>): nat
  {
    if bs == [] then 0 else bs[0].mean.num + SumNums(bs[1..])
  }

  /** The denominators of a list of buckets, added. */
  function SumDens(bs: seq<HourMean>): nat
  {
    if bs == [] then 0 else bs[0].mean.den + SumDens(bs[1..])
  }

  /** The hour sums of hours `h` to 23. */
  function HourSumsFrom(rows: seq<Row>, h: nat): nat
    requires h <= 24
    decreases 24 - h
  {
    if h == 24 then 0 else HourSum(rows, h) + HourSumsFrom(rows, h + 1)
  }

  /** The hour counts of hours `h` to 23. */
  function HourCountsFrom(rows: seq<Row>, h: nat): nat
    requires h <= 24
    decreases 24 - h
  {
    if h == 24 then 0 else HourCount(rows, h) + HourCountsFrom(rows, h + 1)
  }

  lemma {:induction false} BucketsAddUp(rows: seq<Row>, h: nat)
    requires h <= 24
    ensures SumNums(BucketsFrom(rows, h)) == HourSumsFrom(rows, h)
    ensures SumDens(BucketsFrom(rows, h)) == HourCountsFrom(rows, h)
    decreases 24 - h
  {
    if h < 24 {
      BucketsAddUp(rows, h + 1);
      BucketsShift(rows, h);
      if HourCount(rows, h) == 0 {
        EmptyHourSum(rows, h);
      }
    }
  }

  lemma {:induction false} HoursSplit(rows: seq<Row>, h: nat)
    requires rows != [] && h <= 24
    ensures HourSumsFrom(rows, h) ==
      HourSumsFrom(rows[1..], h) + (if h <= rows[0].date.hour then Total(rows[0]) else 0)
    ensures HourCountsFrom(rows, h) ==
      HourCountsFrom(rows[1..], h) + (if h <= rows[0].date.hour then 1 else 0)
    decreases 24 - h
  {
    if h < 24 {
      HoursSplit(rows, h + 1);
    }
  }

  lemma {:induction false} HoursEmpty(h: nat)
    requires h <= 24
    ensures HourSumsFrom([], h) == 0 && HourCountsFrom([], h) == 0
    decreases 24 - h
  {
    if h < 24 {
      HoursEmpty(h + 1);
    }
  }

  lemma {:induction false} HoursAddUp(rows: seq<Row>)
    ensures HourSumsFrom(rows, 0) == Totals(rows)
    ensures HourCountsFrom(rows, 0) == |rows|
  {
    if rows == [] {
      HoursEmpty(0);
    } else {
      HoursSplit(rows, 0);
      HoursAddUp(rows[1..]);
    }
  }

  /**
   * Pooling: every record lands in exactly one bucket, so the buckets'
   * numerators add up to the sum of all totals and their denominators to
   * the number of records.
   */
  lemma HourlyMeansPool(rows: seq<Row>)
    ensures SumNums(HourlyMeans(rows)) == Totals(rows)
    ensures SumDens(HourlyMeans(rows)) == |rows|
  {
    BucketsAddUp(rows, 0);
    HoursAddUp(rows);
  }

  // ---------------------------------------------------------------------
  // Hour relabelling

  /** What the page subtracts from every stored hour. */
  const HourShift: int := 6

  datatype HourPoint = HourPoint(hourLabel: int, mean: Fraction)

  /** The plotted hour labels: each stored hour moved back six, with no wrap. */
  function Relabel(bs: seq<HourMean>): (r: seq<HourPoint>)
    ensures |r| == |bs|
    ensures forall i :: 0 <= i < |r| ==>
      -6 <= r[i].hourLabel <= 17 && r[i].hourLabel + HourShift == bs[i].hour && r[i].mean == bs[i].mean
  {
    seq(|bs|, i requires 0 <= i < |bs| => HourPoint(bs[i].hour - HourShift, bs[i].mean))
  }

  /** The shift keeps the buckets' order, and the early hours get negative labels. */
  lemma RelabelKeepsOrder(bs: seq<HourMean>)
    requires forall i, j :: 0 <= i < j < |bs| ==> bs[i].hour < bs[j].hour
    ensures forall i, j :: 0 <= i < j < |bs| ==> Relabel(bs)[i].hourLabel < Relabel(bs)[j].hourLabel
    ensures forall i :: 0 <= i < |bs| ==> (Relabel(bs)[i].hourLabel < 0 <==> bs[i].hour < 6)
  {
  }

  // ---------------------------------------------------------------------
  // Category shares

  /** A double the page can produce by dividing two counts. */
  datatype Float = Num(q: Fraction) | NaN | Inf

  /** Floating division of counts: 0/0 is NaN and a positive count over 0 is infinite. */
  function Divide(n: nat, d: nat): Float
  {
    if d > 0 then Num(Fraction(n, d)) else if n == 0 then NaN else Inf
  }

  /** A category's column summed over all rows, NULLs counting zero. */
  function ColumnSum(rows: seq<Row>, c: Category): nat
  {
    if rows == [] then 0 else Value(Entry(rows[0], c)) + ColumnSum(rows[1..], c)
  }

  /** All counted vehicles: the four column sums added. */
  function GrandTotal(rows: seq<Row>): nat
  {
    ColumnSum(rows, Car) + ColumnSum(rows, Motorcycle) + ColumnSum(rows, Bus) + ColumnSum(rows, Truck)
  }

  /** The grand total is also the sum of the rows' totals. */
  lemma {:induction false} GrandTotalIsTotals(rows: seq<Row>)
    ensures GrandTotal(rows) == Totals(rows)
  {
    if rows != [] {
      GrandTotalIsTotals(rows[1..]);
    }
  }

  datatype Share = Share(category: Category, share: Float)

  /**
   * One share per category, in the fixed order. With something counted each
   * is its column sum over the grand total, so it lies in [0, 1]; with
   * nothing counted every share is NaN.
   */
  function CategoryShares(rows: seq<Row>): (r: seq<Share>)
    ensures |r| == |ObjectTypes|
    ensures forall i :: 0 <= i < |r| ==> r[i].category == ObjectTypes[i]
    ensures GrandTotal(rows) > 0 ==> forall i :: 0 <= i < |r| ==>
      r[i].share.Num? && r[i].share.q.num == ColumnSum(rows, ObjectTypes[i]) &&
      r[i].share.q.den == GrandTotal(rows) && r[i].share.q.num <= r[i].share.q.den
    ensures GrandTotal(rows) == 0 <==> forall i :: 0 <= i < |r| ==> r[i].share.NaN?
  {
    var g := GrandTotal(rows);
    var r := [Share(Car, Divide(ColumnSum(rows, Car), g)),
              Share(Motorcycle, Divide(ColumnSum(rows, Motorcycle), g)),
              Share(Bus, Divide(ColumnSum(rows, Bus), g)),
              Share(Truck, Divide(ColumnSum(rows, Truck), g))];
    assert g > 0 ==> !r[0].share.NaN?;
    r
  }

  /** With something counted, the four shares add up to one: their numerators make the common denominator. */
  lemma SharesSumToOne(rows: seq<Row>)
    requires GrandTotal(rows) > 0
    ensures var r := CategoryShares(rows);
      r[0].share.q.num + r[1].share.q.num + r[2].share.q.num + r[3].share.q.num == GrandTotal(rows) &&
      forall i :: 0 <= i < |r| ==> r[i].share.q.den == GrandTotal(rows)
  {
  }

  // ---------------------------------------------------------------------
  // The page

  /** What the page plots: the relabelled hourly series and the category shares. */
  datatype Page = Page(hourly: seq<HourPoint>, shares: seq<Share>)

  /** Each plotted point carries the mean of the stored hour its label names. */
  lemma RelabelledPoints(rows: seq<Row>)
    ensures var h := Relabel(HourlyMeans(rows));
      forall i :: 0 <= i < |h| ==>
        HourCount(rows, h[i].hourLabel + HourShift) > 0 &&
        h[i].mean == Fraction(HourSum(rows, h[i].hourLabel + HourShift),
                              HourCount(rows, h[i].hourLabel + HourShift))
  {
    var bs := HourlyMeans(rows);
    var h := Relabel(bs);
    forall i | 0 <= i < |h|
      ensures HourCount(rows, h[i].hourLabel + HourShift) > 0
      ensures h[i].mean == Fraction(HourSum(rows, h[i].hourLabel + HourShift),
                                    HourCount(rows, h[i].hourLabel + HourShift))
    {
      assert h[i].hourLabel + HourShift == bs[i].hour && h[i].mean == bs[i].mean;
    }
  }

  /** A label is plotted exactly for each stored hour with records. */
  lemma RelabelledHours(rows: seq<Row>)
    ensures var h := Relabel(HourlyMeans(rows));
      forall g: Hour ::
        HourCount(rows, g) > 0 <==> exists i :: 0 <= i < |h| && h[i].hourLabel + HourShift == g
  {
    var bs := HourlyMeans(rows);
    var h := Relabel(bs);
    forall g: Hour
      ensures HourCount(rows, g) > 0 <==> exists i :: 0 <= i < |h| && h[i].hourLabel + HourShift == g
    {
      if HourCount(rows, g) > 0 {
        var i :| 0 <= i < |bs| && bs[i].hour == g;
        assert h[i].hourLabel + HourShift == g;
      }
      if exists i :: 0 <= i < |h| && h[i].hourLabel + HourShift == g {
        var i :| 0 <= i < |h| && h[i].hourLabel + HourShift == g;
        assert bs[i].hour == g;
      }
    }
  }

  /** The relabelled hourly series, stated in terms of the stored hours. */
  lemma RelabelledMeans(rows: seq<Row>)
    ensures var h := Relabel(HourlyMeans(rows));
      (forall i, j :: 0 <= i < j < |h| ==> h[i].hourLabel < h[j].hourLabel) &&
      (forall i :: 0 <= i < |h| ==>
        -6 <= h[i].hourLabel <= 17 &&
        HourCount(rows, h[i].hourLabel + HourShift) > 0 &&
        h[i].mean == Fraction(HourSum(rows, h[i].hourLabel + HourShift),
                              HourCount(rows, h[i].hourLabel + HourShift))) &&
      (forall g: Hour ::
        HourCount(rows, g) > 0 <==> exists i :: 0 <= i < |h| && h[i].hourLabel + HourShift == g)
  {
    RelabelKeepsOrder(HourlyMeans(rows));
    RelabelledPoints(rows);
    RelabelledHours(rows);
  }

  /**
   * The index page's figures. Labels ascend and lie in -6..17; a label is
   * present exactly when hour `label + 6` has records, and carries the mean
   * total of that hour; the shares are as `CategoryShares` states.
   */
  function Index(rows: seq<Row>): (p: Page)
    ensures forall i, j :: 0 <= i < j < |p.hourly| ==> p.hourly[i].hourLabel < p.hourly[j].hourLabel
    ensures forall i :: 0 <= i < |p.hourly| ==>
      -6 <= p.hourly[i].hourLabel <= 17 &&
      HourCount(rows, p.hourly[i].hourLabel + HourShift) > 0 &&
      p.hourly[i].mean == Fraction(HourSum(rows, p.hourly[i].hourLabel + HourShift),
                                   HourCount(rows, p.hourly[i].hourLabel + HourShift))
    ensures forall g: Hour ::
      HourCount(rows, g) > 0 <==> exists i :: 0 <= i < |p.hourly| && p.hourly[i].hourLabel + HourShift == g
    ensures p.shares == CategoryShares(rows)
  {
    RelabelledMeans(rows);
    Page(Relabel(HourlyMeans(rows)), CategoryShares(rows))
  }

  lemma {:induction false} NoBuckets(h: nat)
    requires h <= 24
    ensures BucketsFrom([], h) == []
    decreases 24 - h
  {
    if h < 24 {
      NoBuckets(h + 1);
    }
  }

  /** An empty store plots no hourly point and four NaN shares. */
  lemma EmptyStore()
    ensures Index([]).hourly == []
    ensures forall i :: 0 <= i < |Index([]).shares| ==> Index([]).shares[i].share.NaN?
  {
    NoBuckets(0);
  }

  // ---------------------------------------------------------------------
  // Records written by the per-frame pipeline

  /** A category cell of a saved record: an absent key reads back as NULL. */
  function Column(rec: DetectVehicles.Record, name: string): Option<nat>
  {
    if name in rec && rec[name].Count? then Some(rec[name].n) else None
  }

  /**
   * A saved record as the page reads it back. The collector always sets
   * `date`; a record without one is not modelled and gives None here.
   */
  function Stored(rec: DetectVehicles.Record): Option<Row>
  {
    if "date" in rec && rec["date"].Date? then
      Some(Row(rec["date"].t, Column(rec, "car"), Column(rec, "motorcycle"),
               Column(rec, "bus"), Column(rec, "truck")))
    else None
  }

  /** A category column of a frame's record: NULL when the name was not detected, else its count. */
  lemma SavedColumn(ds: seq<Detection>, ts: DateTime, c: Category)
    ensures var col := Column(DetectVehicles.DetectionRecord(ds, ts), ColumnName(c));
      (col.None? <==> ColumnName(c) !in Names(ds)) &&
      Value(col) == Counting.Occurrences(Names(ds), ColumnName(c))
  {
    Counting.OccurrencesPositive(Names(ds));
    assert ColumnName(c) != "date";
  }

  /**
   * A frame's record reads back with its capture instant; a category is NULL
   * exactly when nothing of it was detected, and the total counts the
   * detections of the four categories.
   */
  lemma SavedFrameTotal(ds: seq<Detection>, ts: DateTime)
    ensures var row := Stored(DetectVehicles.DetectionRecord(ds, ts));
      row.Some? && row.value.date == ts &&
      (forall c :: Entry(row.value, c).None? <==> ColumnName(c) !in Names(ds)) &&
      Total(row.value) ==
        Counting.Occurrences(Names(ds), "car") + Counting.Occurrences(Names(ds), "motorcycle") +
        Counting.Occurrences(Names(ds), "bus") + Counting.Occurrences(Names(ds), "truck")
  {
    var rec := DetectVehicles.DetectionRecord(ds, ts);
    forall c: Category
      ensures Entry(Stored(rec).value, c) == Column(rec, ColumnName(c))
    {
      match c
      case Car =>
      case Motorcycle =>
      case Bus =>
      case Truck =>
    }
    forall c: Category
      ensures Entry(Stored(rec).value, c).None? <==> ColumnName(c) !in Names(ds)
    {
      SavedColumn(ds, ts, c);
    }
    SavedColumn(ds, ts, Car);
    SavedColumn(ds, ts, Motorcycle);
    SavedColumn(ds, ts, Bus);
    SavedColumn(ds, ts, Truck);
  }
}
