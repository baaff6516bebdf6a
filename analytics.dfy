/**
 * AnalyticsService.getPerformance (src/services/analyticsService.ts): reads a
 * device's history rows of the last 24 hours and reduces them to AC energy
 * consumed, DC energy delivered, their ratio and the mean battery temperature.
 *
 * The loop of GetPerformance is proved equal to the recursive sums and counts
 * below; the lemmas state what those sums mean.
 */
module Analytics {
  import opened Telemetry
  import opened Storage

  /** Length of the trailing window: 24 * 60 * 60 * 1000 milliseconds. */
  const DayMillis: int := 86_400_000

  /** The label the report gives the window. */
  const Period: string := "24h"

  datatype Report = Report(
    vehicleId: string,
    period: string,
    totalkwhConsumedAc: real,
    totalkwhDeliveredDc: real,
    efficiencyRatio: real,
    avgBatteryTemp: real)

  /** `data.field || 0`: the field's number when there is one, else 0. */
  function NumberOrZero(p: Payload, field: string): (n: real)
    ensures IsNumber(p, field) ==> n == p[field].n
    ensures !IsNumber(p, field) ==> n == 0.0
  {
    if IsNumber(p, field) then p[field].n else 0.0
  }

  /** What a row adds to the AC total: only meter rows add. */
  function AcOf(row: ColdRow): real {
    if row.kind == MeterType then NumberOrZero(row.data, "kwhConsumedAc") else 0.0
  }

  /** What a row adds to the DC total: only vehicle rows add. */
  function DcOf(row: ColdRow): real {
    if row.kind == VehicleType then NumberOrZero(row.data, "kwhDeliveredDc") else 0.0
  }

  /** Whether a row takes part in the temperature average: a vehicle row with a batteryTemp. */
  predicate HasTemp(row: ColdRow) {
    row.kind == VehicleType && "batteryTemp" in row.data
  }

  /** What a row adds to the temperature sum. */
  function TempOf(row: ColdRow): real {
    if HasTemp(row) then NumberOrZero(row.data, "batteryTemp") else 0.0
  }

  /** The sum of f over rows. */
  function Sum(rows: seq<ColdRow>, f: ColdRow -> real): real {
    if rows == [] then 0.0 else Sum(rows[..|rows| - 1], f) + f(rows[|rows| - 1])
  }

  /** The number of rows satisfying p. */
  function Count(rows: seq<ColdRow>, p: ColdRow -> bool): (n: nat)
    ensures n <= |rows|
  {
    if rows == [] then 0 else Count(rows[..|rows| - 1], p) + (if p(rows[|rows| - 1]) then 1 else 0)
  }

  /** `totalAc > 0 ? totalDc / totalAc : 0`. */
  function Ratio(totalDc: real, totalAc: real): (r: real)
    ensures totalAc <= 0.0 ==> r == 0.0
    ensures totalAc > 0.0 ==> r * totalAc == totalDc
  {
    if totalAc > 0.0 then totalDc / totalAc else 0.0
  }

  /** `tempCount > 0 ? tempSum / tempCount : 0`. */
  function Mean(tempSum: real, tempCount: nat): (m: real)
    ensures tempCount == 0 ==> m == 0.0
    ensures tempCount > 0 ==> m * tempCount as real == tempSum
  {
    if tempCount > 0 then tempSum / tempCount as real else 0.0
  }

  /**
   * The report for the rows of the window: totals, the ratio of DC to AC when
   * some AC was consumed, and the mean temperature when some row carried one.
   */
  function Performance(vehicleId: string, rows: seq<ColdRow>): (r: Report)
    ensures r.vehicleId == vehicleId && r.period == Period
    ensures r.totalkwhConsumedAc <= 0.0 ==> r.efficiencyRatio == 0.0
    ensures Count(rows, HasTemp) == 0 ==> r.avgBatteryTemp == 0.0
  {
    var ac, dc := Sum(rows, AcOf), Sum(rows, DcOf);
    var tempSum, tempCount := Sum(rows, TempOf), Count(rows, HasTemp);
    Report(vehicleId, Period, ac, dc, Ratio(dc, ac), Mean(tempSum, tempCount))
  }

  lemma {:induction false} SumConcat(a: seq<ColdRow>, b: seq<ColdRow>, f: ColdRow -> real)
    ensures Sum(a + b, f) == Sum(a, f) + Sum(b, f)
    decreases |b|
  {
    if b == [] {
      assert a + b == a;
    } else {
      assert (a + b)[..|a + b| - 1] == a + b[..|b| - 1];
      SumConcat(a, b[..|b| - 1], f);
    }
  }

  lemma {:induction false} CountConcat(a: seq<ColdRow>, b: seq<ColdRow>, p: ColdRow -> bool)
    ensures Count(a + b, p) == Count(a, p) + Count(b, p)
    decreases |b|
  {
    if b == [] {
      assert a + b == a;
    } else {
      assert (a + b)[..|a + b| - 1] == a + b[..|b| - 1];
      CountConcat(a, b[..|b| - 1], p);
    }
  }

  lemma {:induction false} RowsAtConcat(cold: map<Key, ColdRow>, a: seq<Key>, b: seq<Key>)
    requires forall k :: k in a + b ==> k in cold
    ensures RowsAt(cold, a + b) == RowsAt(cold, a) + RowsAt(cold, b)
  {
  }

  /** Taking one key out of the middle of a key list takes its row out of the sum. */
  lemma {:induction false} SumWithout(cold: map<Key, ColdRow>, b1: seq<Key>, x: Key, b2: seq<Key>, f: ColdRow -> real)
    requires forall k :: k in b1 + [x] + b2 ==> k in cold
    ensures Sum(RowsAt(cold, b1 + [x] + b2), f) == Sum(RowsAt(cold, b1 + b2), f) + f(cold[x])
  {
    RowsAtConcat(cold, b1 + [x], b2);
    RowsAtConcat(cold, b1, [x]);
    RowsAtConcat(cold, b1, b2);
    SumConcat(RowsAt(cold, b1) + RowsAt(cold, [x]), RowsAt(cold, b2), f);
    SumConcat(RowsAt(cold, b1), RowsAt(cold, [x]), f);
    SumConcat(RowsAt(cold, b1), RowsAt(cold, b2), f);
  }

  lemma MultisetWithout(a: seq<Key>, x: Key, b1: seq<Key>, b2: seq<Key>)
    requires multiset(a + [x]) == multiset(b1 + [x] + b2)
    ensures multiset(b1 + b2) == multiset(a)
  {
    calc {
      multiset(b1 + b2) + multiset{x};
      multiset(b1) + multiset(b2) + multiset([x]);
      multiset(b1 + [x] + b2);
      multiset(a + [x]);
      multiset(a) + multiset{x};
    }
    assert multiset(b1 + b2) == multiset(b1 + b2) + multiset{x} - multiset{x};
    assert multiset(a) == multiset(a) + multiset{x} - multiset{x};
  }

  lemma SameMultisetSameMembers(a: seq<Key>, b: seq<Key>)
    requires multiset(a) == multiset(b)
    ensures forall k :: k in a <==> k in b
  {
    forall k ensures k in a <==> k in b {
      assert k in a <==> k in multiset(a);
      assert k in b <==> k in multiset(b);
    }
  }

  lemma SumSnocKey(cold: map<Key, ColdRow>, a: seq<Key>, x: Key, f: ColdRow -> real)
    requires forall k :: k in a + [x] ==> k in cold
    ensures Sum(RowsAt(cold, a + [x]), f) == Sum(RowsAt(cold, a), f) + f(cold[x])
  {
    assert (a + [x])[..|a|] == a;
    assert RowsAt(cold, a + [x]) == RowsAt(cold, a) + [cold[x]];
  }

  /** Summing over any ordering of the same keys gives the same total. */
  lemma {:induction false} SumReordered(cold: map<Key, ColdRow>, a: seq<Key>, b: seq<Key>, f: ColdRow -> real)
    requires multiset(a) == multiset(b)
    requires forall k :: k in a ==> k in cold
    ensures forall k :: k in b ==> k in cold
    ensures Sum(RowsAt(cold, a), f) == Sum(RowsAt(cold, b), f)
    decreases |a|
  {
    SameMultisetSameMembers(a, b);
    if a == [] {
      assert |b| == |multiset(b)|;
    } else {
      var a', x := a[..|a| - 1], a[|a| - 1];
      assert a == a' + [x];
      assert x in multiset(b);
      var j :| 0 <= j < |b| && b[j] == x;
      var b1, b2 := b[..j], b[j + 1..];
      assert b == b1 + [x] + b2;
      MultisetWithout(a', x, b1, b2);
      SumReordered(cold, a', b1 + b2, f);
      SumWithout(cold, b1, x, b2, f);
      SumSnocKey(cold, a', x, f);
      calc {
        Sum(RowsAt(cold, a), f);
        Sum(RowsAt(cold, a' + [x]), f);
        Sum(RowsAt(cold, a'), f) + f(cold[x]);
        Sum(RowsAt(cold, b1 + b2), f) + f(cold[x]);
        Sum(RowsAt(cold, b1 + [x] + b2), f);
        Sum(RowsAt(cold, b), f);
      }
    }
  }

  /** The 0/1 weight of a row under p. */
  function Indicator(p: ColdRow -> bool): ColdRow -> real {
    row => if p(row) then 1.0 else 0.0
  }

  lemma {:induction false} CountAsSum(rows: seq<ColdRow>, p: ColdRow -> bool)
    ensures Count(rows, p) as real == Sum(rows, Indicator(p))
  {
    if rows != [] {
      CountAsSum(rows[..|rows| - 1], p);
    }
  }

  /** Counting over any ordering of the same keys gives the same number. */
  lemma CountReordered(cold: map<Key, ColdRow>, a: seq<Key>, b: seq<Key>, p: ColdRow -> bool)
    requires multiset(a) == multiset(b)
    requires forall k :: k in a ==> k in cold
    ensures forall k :: k in b ==> k in cold
    ensures Count(RowsAt(cold, a), p) == Count(RowsAt(cold, b), p)
  {
    SumReordered(cold, a, b, Indicator(p));
    CountAsSum(RowsAt(cold, a), p);
    CountAsSum(RowsAt(cold, b), p);
  }

  lemma {:induction false} DistinctMultiplicity(a: seq<Key>, k: Key)
    requires Distinct(a)
    ensures multiset(a)[k] == if k in a then 1 else 0
  {
    if a != [] {
      var a', x := a[..|a| - 1], a[|a| - 1];
      assert a == a' + [x];
      assert x !in a' by {
        forall i | 0 <= i < |a'| ensures a'[i] != x { assert a[i] != a[|a| - 1]; }
      }
      DistinctMultiplicity(a', k);
    }
  }

  /** Two duplicate-free listings of the same keys are permutations of each other. */
  lemma SameKeysSameMultiset(a: seq<Key>, b: seq<Key>)
    requires Distinct(a) && Distinct(b)
    requires forall k :: k in a <==> k in b
    ensures multiset(a) == multiset(b)
  {
    forall k ensures multiset(a)[k] == multiset(b)[k] {
      DistinctMultiplicity(a, k);
      DistinctMultiplicity(b, k);
    }
  }

  /**
   * The report depends on the rows of the window, not on the order the query
   * returns them in: any two listings of the window give the same report.
   */
  lemma PerformanceIndependentOfRowOrder(
    cold: map<Key, ColdRow>, vehicleId: string, from: int, to: int, a: seq<Key>, b: seq<Key>)
    requires WindowEnumeration(cold, vehicleId, from, to, a)
    requires WindowEnumeration(cold, vehicleId, from, to, b)
    ensures Performance(vehicleId, RowsAt(cold, a)) == Performance(vehicleId, RowsAt(cold, b))
  {
    SameKeysSameMultiset(a, b);
    SumReordered(cold, a, b, AcOf);
    SumReordered(cold, a, b, DcOf);
    SumReordered(cold, a, b, TempOf);
    CountReordered(cold, a, b, HasTemp);
  }

  lemma {:induction false} SumOfZeros(rows: seq<ColdRow>, f: ColdRow -> real)
    requires forall i :: 0 <= i < |rows| ==> f(rows[i]) == 0.0
    ensures Sum(rows, f) == 0.0
  {
    if rows != [] {
      SumOfZeros(rows[..|rows| - 1], f);
    }
  }

  lemma {:induction false} CountOfNone(rows: seq<ColdRow>, p: ColdRow -> bool)
    requires forall i :: 0 <= i < |rows| ==> !p(rows[i])
    ensures Count(rows, p) == 0
  {
    if rows != [] {
      CountOfNone(rows[..|rows| - 1], p);
    }
  }

  /** Without meter rows nothing was consumed, and the ratio is the zero sentinel. */
  lemma NoMeterRowsZeroEfficiency(vehicleId: string, rows: seq<ColdRow>)
    requires forall i :: 0 <= i < |rows| ==> rows[i].kind != MeterType
    ensures Performance(vehicleId, rows).totalkwhConsumedAc == 0.0
    ensures Performance(vehicleId, rows).efficiencyRatio == 0.0
  {
    SumOfZeros(rows, AcOf);
  }

  /** Without vehicle rows nothing was delivered and the mean temperature is the zero sentinel. */
  lemma NoVehicleRowsZeroDcAndTemp(vehicleId: string, rows: seq<ColdRow>)
    requires forall i :: 0 <= i < |rows| ==> rows[i].kind != VehicleType
    ensures Performance(vehicleId, rows).totalkwhDeliveredDc == 0.0
    ensures Performance(vehicleId, rows).efficiencyRatio == 0.0
    ensures Performance(vehicleId, rows).avgBatteryTemp == 0.0
  {
    SumOfZeros(rows, DcOf);
    CountOfNone(rows, HasTemp);
  }

  /** An empty window gives an all-zero report that still names the device and the period. */
  lemma EmptyWindowReport(cold: map<Key, ColdRow>, vehicleId: string, now: int, keys: seq<Key>)
    requires WindowEnumeration(cold, vehicleId, now - DayMillis, now, keys)
    requires forall k :: k in cold ==> !InWindow(k, vehicleId, now - DayMillis, now)
    ensures Performance(vehicleId, RowsAt(cold, keys)) == Report(vehicleId, Period, 0.0, 0.0, 0.0, 0.0)
  {
  }

  /** Inserting one row anywhere adds its share to a sum. */
  lemma SumInsert(a: seq<ColdRow>, r: ColdRow, b: seq<ColdRow>, f: ColdRow -> real)
    ensures Sum(a + [r] + b, f) == Sum(a + b, f) + f(r)
  {
    SumConcat(a + [r], b, f);
    SumConcat(a, [r], f);
    SumConcat(a, b, f);
    assert [r][..0] == [];
  }

  lemma CountInsert(a: seq<ColdRow>, r: ColdRow, b: seq<ColdRow>, p: ColdRow -> bool)
    ensures Count(a + [r] + b, p) == Count(a + b, p) + (if p(r) then 1 else 0)
  {
    CountConcat(a + [r], b, p);
    CountConcat(a, [r], p);
    CountConcat(a, b, p);
    assert [r][..0] == [];
  }

  /** A meter row adds its kwhConsumedAc to the AC total and touches nothing else. */
  lemma MeterRowOnlyAffectsAc(a: seq<ColdRow>, r: ColdRow, b: seq<ColdRow>)
    requires r.kind == MeterType
    ensures Sum(a + [r] + b, AcOf) == Sum(a + b, AcOf) + NumberOrZero(r.data, "kwhConsumedAc")
    ensures Sum(a + [r] + b, DcOf) == Sum(a + b, DcOf)
    ensures Sum(a + [r] + b, TempOf) == Sum(a + b, TempOf)
    ensures Count(a + [r] + b, HasTemp) == Count(a + b, HasTemp)
  {
    SumInsert(a, r, b, AcOf);
    SumInsert(a, r, b, DcOf);
    SumInsert(a, r, b, TempOf);
    CountInsert(a, r, b, HasTemp);
  }

  /**
   * A vehicle row adds its kwhDeliveredDc to the DC total and, when it carries a
   * batteryTemp, one reading to the temperature mean; it never touches AC.
   */
  lemma VehicleRowOnlyAffectsDcAndTemp(a: seq<ColdRow>, r: ColdRow, b: seq<ColdRow>)
    requires r.kind == VehicleType
    ensures Sum(a + [r] + b, AcOf) == Sum(a + b, AcOf)
    ensures Sum(a + [r] + b, DcOf) == Sum(a + b, DcOf) + NumberOrZero(r.data, "kwhDeliveredDc")
    ensures "batteryTemp" in r.data ==>
      && Sum(a + [r] + b, TempOf) == Sum(a + b, TempOf) + NumberOrZero(r.data, "batteryTemp")
      && Count(a + [r] + b, HasTemp) == Count(a + b, HasTemp) + 1
    ensures "batteryTemp" !in r.data ==>
      && Sum(a + [r] + b, TempOf) == Sum(a + b, TempOf)
      && Count(a + [r] + b, HasTemp) == Count(a + b, HasTemp)
  {
    SumInsert(a, r, b, AcOf);
    SumInsert(a, r, b, DcOf);
    SumInsert(a, r, b, TempOf);
    CountInsert(a, r, b, HasTemp);
  }

  /** A row of any other type does not change the report. */
  lemma OtherTypeIgnored(vehicleId: string, a: seq<ColdRow>, r: ColdRow, b: seq<ColdRow>)
    requires r.kind != MeterType && r.kind != VehicleType
    ensures Performance(vehicleId, a + [r] + b) == Performance(vehicleId, a + b)
  {
    SumInsert(a, r, b, AcOf);
    SumInsert(a, r, b, DcOf);
    SumInsert(a, r, b, TempOf);
    CountInsert(a, r, b, HasTemp);
  }

  /** The positions of the rows that satisfy p. */
  function IndicesWhere(rows: seq<ColdRow>, p: ColdRow -> bool): set<int> {
    set i | 0 <= i < |rows| && p(rows[i])
  }

  lemma IndicesSnoc(rows: seq<ColdRow>, p: ColdRow -> bool)
    requires rows != []
    ensures var n := |rows| - 1;
      && n !in IndicesWhere(rows[..n], p)
      && IndicesWhere(rows, p) == IndicesWhere(rows[..n], p) + (if p(rows[n]) then {n} else {})
  {
  }

  /** The count is the number of rows that satisfy p. */
  lemma {:induction false} CountIsCardinality(rows: seq<ColdRow>, p: ColdRow -> bool)
    ensures Count(rows, p) == |IndicesWhere(rows, p)|
  {
    if rows != [] {
      CountIsCardinality(rows[..|rows| - 1], p);
      IndicesSnoc(rows, p);
    }
  }

  /** Every temperature reading among rows lies in [lo, hi]. */
  predicate TempsBetween(rows: seq<ColdRow>, lo: real, hi: real) {
    TempsAtLeast(rows, lo) && TempsAtMost(rows, hi)
  }

  /** Every temperature reading among rows is at least lo. */
  predicate TempsAtLeast(rows: seq<ColdRow>, lo: real) {
    forall i :: 0 <= i < |rows| && HasTemp(rows[i]) ==> lo <= TempOf(rows[i])
  }

  /** Every temperature reading among rows is at most hi. */
  predicate TempsAtMost(rows: seq<ColdRow>, hi: real) {
    forall i :: 0 <= i < |rows| && HasTemp(rows[i]) ==> TempOf(rows[i]) <= hi
  }

  /** x added up n times; n * x, kept free of multiplication so that sums stay linear. */
  function Times(x: real, n: nat): real {
    if n == 0 then 0.0 else Times(x, n - 1) + x
  }

  lemma {:induction false} TimesIsProduct(x: real, n: nat)
    ensures Times(x, n) == x * n as real
  {
    if n > 0 {
      TimesIsProduct(x, n - 1);
      ScaleStep(x, (n - 1) as real);
    }
  }

  lemma ScaleStep(x: real, c: real)
    ensures x * (c + 1.0) == x * c + x
  {
  }

  lemma {:induction false} TempSumAtLeast(rows: seq<ColdRow>, lo: real)
    requires TempsAtLeast(rows, lo)
    ensures Times(lo, Count(rows, HasTemp)) <= Sum(rows, TempOf)
  {
    if rows != [] {
      TempSumAtLeast(rows[..|rows| - 1], lo);
    }
  }

  lemma {:induction false} TempSumAtMost(rows: seq<ColdRow>, hi: real)
    requires TempsAtMost(rows, hi)
    ensures Sum(rows, TempOf) <= Times(hi, Count(rows, HasTemp))
  {
    if rows != [] {
      TempSumAtMost(rows[..|rows| - 1], hi);
    }
  }

  lemma Distribute(x: real, y: real, c: real)
    ensures (x - y) * c == x * c - y * c
  {
  }

  lemma NonNegativeFactor(y: real, c: real)
    requires c > 0.0 && y * c >= 0.0
    ensures y >= 0.0
  {
  }

  /** A mean lies between the bounds its sum is built from. */
  lemma MeanBounds(tempSum: real, tempCount: nat, lo: real, hi: real)
    requires tempCount > 0
    requires Times(lo, tempCount) <= tempSum <= Times(hi, tempCount)
    ensures lo <= Mean(tempSum, tempCount) <= hi
  {
    var c, m := tempCount as real, Mean(tempSum, tempCount);
    TimesIsProduct(lo, tempCount);
    TimesIsProduct(hi, tempCount);
    Distribute(m, lo, c);
    NonNegativeFactor(m - lo, c);
    Distribute(hi, m, c);
    NonNegativeFactor(hi - m, c);
  }

  /** The mean battery temperature lies between the lowest and highest reading. */
  lemma AverageWithinBounds(vehicleId: string, rows: seq<ColdRow>, lo: real, hi: real)
    requires TempsBetween(rows, lo, hi)
    requires Count(rows, HasTemp) > 0
    ensures lo <= Performance(vehicleId, rows).avgBatteryTemp <= hi
  {
    var tempSum, tempCount := Sum(rows, TempOf), Count(rows, HasTemp);
    TempSumAtLeast(rows, lo);
    TempSumAtMost(rows, hi);
    MeanBounds(tempSum, tempCount, lo, hi);
    assert Performance(vehicleId, rows).avgBatteryTemp == Mean(tempSum, tempCount);
  }

  /** The service; it holds the database it reads from. */
  class AnalyticsService {
    const db: Database

    constructor (db: Database)
      ensures this.db == db
    {
      this.db := db;
    }

    /**
     * Reads the device's history rows with timestamp in [now - 24h, now] and
     * reduces them in one pass. It writes nothing.
     */
    method GetPerformance(vehicleId: string, now: int) returns (report: Report, ghost keys: seq<Key>)
      ensures WindowEnumeration(db.cold, vehicleId, now - DayMillis, now, keys)
      ensures report == Performance(vehicleId, RowsAt(db.cold, keys))
      ensures forall ks :: WindowEnumeration(db.cold, vehicleId, now - DayMillis, now, ks) ==>
                report == Performance(vehicleId, RowsAt(db.cold, ks))
    {
      var twentyFourHoursAgo := now - DayMillis;
      var rows;
      rows, keys := db.Select(vehicleId, twentyFourHoursAgo, now);
      var totalAc, totalDc, tempSum, tempCount := 0.0, 0.0, 0.0, 0;
      for i := 0 to |rows|
        invariant totalAc == Sum(rows[..i], AcOf)
        invariant totalDc == Sum(rows[..i], DcOf)
        invariant tempSum == Sum(rows[..i], TempOf)
        invariant tempCount == Count(rows[..i], HasTemp)
      {
        assert rows[..i + 1][..i] == rows[..i];
        var row := rows[i];
        if row.kind == MeterType {
          totalAc := totalAc + NumberOrZero(row.data, "kwhConsumedAc");
        } else if row.kind == VehicleType {
          totalDc := totalDc + NumberOrZero(row.data, "kwhDeliveredDc");
          if "batteryTemp" in row.data {
            tempSum := tempSum + NumberOrZero(row.data, "batteryTemp");
            tempCount := tempCount + 1;
          }
        }
      }
      assert rows[..|rows|] == rows;
      var efficiency := Ratio(totalDc, totalAc);
      var avgBatteryTemp := Mean(tempSum, tempCount);
      report := Report(vehicleId, Period, totalAc, totalDc, efficiency, avgBatteryTemp);
      forall ks | WindowEnumeration(db.cold, vehicleId, now - DayMillis, now, ks)
        ensures report == Performance(vehicleId, RowsAt(db.cold, ks))
      {
        PerformanceIndependentOfRowOrder(db.cold, vehicleId, now - DayMillis, now, keys, ks);
      }
    }
  }
}
