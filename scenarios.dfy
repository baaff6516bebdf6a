/**
 * The end-to-end scenario of scripts/verify.ts: one device first reports as a
 * meter, then as a vehicle, and the performance report over the last 24 hours
 * combines both readings.
 */
module Scenarios {
  import opened Wrappers
  import opened Telemetry
  import opened Storage
  import opened Ingestion
  import opened Analytics

  /** The meter body the script posts. */
  function MeterBody(id: string, timestamp: string): Payload {
    map["meterId" := Str(id), "kwhConsumedAc" := Num(10.5), "voltage" := Num(230.0), "timestamp" := Str(timestamp)]
  }

  /** The vehicle body the script posts, under the same device id. */
  function VehicleBody(id: string, timestamp: string): Payload {
    map["vehicleId" := Str(id), "soc" := Num(80.0), "kwhDeliveredDc" := Num(8.5),
        "batteryTemp" := Num(35.0), "timestamp" := Str(timestamp)]
  }

  /** The meter body passes validation unchanged and is stored as a meter reading of id at its instant. */
  lemma MeterBodyAccepted(id: string, s: string, parse: DateTimeParser)
    requires parse(s).Some?
    ensures ParseIngest(MeterBody(id, s), parse) == Some(MeterBody(id, s))
    ensures "meterId" in ParseIngest(MeterBody(id, s), parse).value
    ensures IsIngestPayload(MeterBody(id, s), parse)
    ensures Classify(MeterBody(id, s)) == Classification(MeterType, id)
    ensures HistoryKey(MeterBody(id, s), parse) == (id, parse(s).value)
  {
    var m := MeterBody(id, s);
    assert m.Keys == MeterFields;
    assert MeterShape(m, parse);
    var r := ParseIngest(m, parse).value;
    assert r.Keys == m.Keys;
    assert r == m;
  }

  /** The vehicle body passes validation unchanged and is stored as a vehicle reading of id at its instant. */
  lemma VehicleBodyAccepted(id: string, s: string, parse: DateTimeParser)
    requires parse(s).Some?
    ensures ParseIngest(VehicleBody(id, s), parse) == Some(VehicleBody(id, s))
    ensures "meterId" !in ParseIngest(VehicleBody(id, s), parse).value
    ensures IsIngestPayload(VehicleBody(id, s), parse)
    ensures Classify(VehicleBody(id, s)) == Classification(VehicleType, id)
    ensures HistoryKey(VehicleBody(id, s), parse) == (id, parse(s).value)
  {
    var v := VehicleBody(id, s);
    assert v.Keys == VehicleFields;
    assert !MeterShape(v, parse) by {
      assert "meterId" !in v;
    }
    assert VehicleShape(v, parse);
    var r := ParseIngest(v, parse).value;
    assert "meterId" !in r;
    assert r.Keys == v.Keys;
    assert r == v;
  }

  /** The two calls of the script, from empty tables. */
  function ScriptBatch(id: string, s1: string, s2: string, at1: int, at2: int): seq<Reading> {
    [Reading(MeterBody(id, s1), at1), Reading(VehicleBody(id, s2), at2)]
  }

  lemma ScriptBatchValid(id: string, s1: string, s2: string, at1: int, at2: int, parse: DateTimeParser)
    requires parse(s1).Some? && parse(s2).Some?
    ensures AllValid(ScriptBatch(id, s1, s2, at1, at2), parse)
  {
    MeterBodyAccepted(id, s1, parse);
    VehicleBodyAccepted(id, s2, parse);
  }

  /** The tables after the script's two calls, from empty tables. */
  function ScriptTables(id: string, s1: string, s2: string, at1: int, at2: int, parse: DateTimeParser): Tables
    requires parse(s1).Some? && parse(s2).Some?
  {
    ScriptBatchValid(id, s1, s2, at1, at2, parse);
    Run(Tables(map[], map[]), ScriptBatch(id, s1, s2, at1, at2), parse)
  }

  /** A first call on empty tables stores the reading in both tables. */
  lemma FirstCall(p: Payload, parse: DateTimeParser, at: int)
    requires IsIngestPayload(p, parse)
    ensures var c := Classify(p);
      IngestStep(Tables(map[], map[]), p, parse, at)
         == (Tables(map[HistoryKey(p, parse) := ColdRow(c.kind, p)], map[c.deviceId := HotRow(c.kind, p, at)]), Pass)
  {
  }

  /**
   * A second call for the same device at a new instant adds a history row and
   * replaces the latest data and time, but not the type.
   */
  lemma SecondCall(k: Key, row: ColdRow, h: HotRow, p: Payload, parse: DateTimeParser, at: int)
    requires IsIngestPayload(p, parse) && HistoryKey(p, parse) != k
    ensures var c := Classify(p);
      IngestStep(Tables(map[k := row], map[c.deviceId := h]), p, parse, at)
         == (Tables(map[k := row, HistoryKey(p, parse) := ColdRow(c.kind, p)],
                    map[c.deviceId := h.(latestData := p, updatedAt := at)]), Pass)
  {
    var c, key := Classify(p), HistoryKey(p, parse);
    var hot := map[c.deviceId := h];
    assert hot[c.deviceId := hot[c.deviceId].(latestData := p, updatedAt := at)]
        == map[c.deviceId := h.(latestData := p, updatedAt := at)];
  }

  /**
   * After the script's two calls at distinct instants the history holds both
   * rows; the latest state is the vehicle reading, but the device keeps the
   * type it was first stored with.
   */
  lemma ScriptTablesContents(id: string, s1: string, s2: string, at1: int, at2: int, parse: DateTimeParser)
    requires parse(s1).Some? && parse(s2).Some? && parse(s1).value != parse(s2).value
    ensures ScriptTables(id, s1, s2, at1, at2, parse).cold
         == map[(id, parse(s1).value) := ColdRow(MeterType, MeterBody(id, s1)),
                (id, parse(s2).value) := ColdRow(VehicleType, VehicleBody(id, s2))]
    ensures ScriptTables(id, s1, s2, at1, at2, parse).hot == map[id := HotRow(MeterType, VehicleBody(id, s2), at2)]
  {
    ScriptBatchValid(id, s1, s2, at1, at2, parse);
    MeterBodyAccepted(id, s1, parse);
    VehicleBodyAccepted(id, s2, parse);
    var m, v := MeterBody(id, s1), VehicleBody(id, s2);
    var x, y := Reading(m, at1), Reading(v, at2);
    var empty := Tables(map[], map[]);
    RunSnoc(empty, [], x, parse);
    assert [] + [x] == [x];
    RunSnoc(empty, [x], y, parse);
    assert [x] + [y] == ScriptBatch(id, s1, s2, at1, at2);
    FirstCall(m, parse, at1);
    var afterMeter := Run(empty, [x], parse);
    assert afterMeter == Tables(map[(id, parse(s1).value) := ColdRow(MeterType, m)], map[id := HotRow(MeterType, m, at1)]);
    SecondCall((id, parse(s1).value), ColdRow(MeterType, m), HotRow(MeterType, m, at1), v, parse, at2);
  }

  /** Totals, ratio and mean for one meter row followed by one vehicle row of the script. */
  lemma ScriptRowsReport(id: string, s1: string, s2: string)
    ensures Performance(id, [ColdRow(MeterType, MeterBody(id, s1)), ColdRow(VehicleType, VehicleBody(id, s2))])
         == Report(id, Period, 10.5, 8.5, 8.5 / 10.5, 35.0)
  {
    var rows := [ColdRow(MeterType, MeterBody(id, s1)), ColdRow(VehicleType, VehicleBody(id, s2))];
    assert rows[..1] == [rows[0]];
    assert rows[..1][..0] == [];
    assert Sum(rows[..1], AcOf) == 10.5;
    assert Sum(rows[..1], DcOf) == 0.0;
    assert Sum(rows[..1], TempOf) == 0.0;
    assert Sum(rows, AcOf) == 10.5;
    assert Sum(rows, DcOf) == 8.5;
    assert Sum(rows, TempOf) == 35.0;
    assert Count(rows, HasTemp) == 1;
  }

  /** Two rows of one device at distinct instants inside [from, to] are listed, in order, by their two keys. */
  lemma TwoRowWindow(id: string, t1: int, t2: int, r1: ColdRow, r2: ColdRow, from: int, to: int)
    requires t1 != t2 && from <= t1 <= to && from <= t2 <= to
    ensures var cold := map[(id, t1) := r1, (id, t2) := r2];
      && WindowEnumeration(cold, id, from, to, [(id, t1), (id, t2)])
      && RowsAt(cold, [(id, t1), (id, t2)]) == [r1, r2]
  {
    var cold := map[(id, t1) := r1, (id, t2) := r2];
    var keys := [(id, t1), (id, t2)];
    assert keys[..1] == [keys[0]];
    assert RowsAt(cold, keys) == [cold[keys[0]], cold[keys[1]]];
  }

  /**
   * The report over a window holding both instants totals 10.5 kWh AC and
   * 8.5 kWh DC, with the positive efficiency ratio 8.5 / 10.5 the script
   * checks for and a mean battery temperature of 35.
   */
  lemma ScriptScenario(
    id: string, s1: string, s2: string, at1: int, at2: int, parse: DateTimeParser, now: int, keys: seq<Key>)
    requires parse(s1).Some? && parse(s2).Some? && parse(s1).value != parse(s2).value
    requires now - DayMillis <= parse(s1).value <= now && now - DayMillis <= parse(s2).value <= now
    requires WindowEnumeration(ScriptTables(id, s1, s2, at1, at2, parse).cold, id, now - DayMillis, now, keys)
    ensures var cold := ScriptTables(id, s1, s2, at1, at2, parse).cold;
            && Performance(id, RowsAt(cold, keys)) == Report(id, Period, 10.5, 8.5, 8.5 / 10.5, 35.0)
            && Performance(id, RowsAt(cold, keys)).efficiencyRatio > 0.0
  {
    ScriptTablesContents(id, s1, s2, at1, at2, parse);
    var cold := ScriptTables(id, s1, s2, at1, at2, parse).cold;
    var r1, r2 := ColdRow(MeterType, MeterBody(id, s1)), ColdRow(VehicleType, VehicleBody(id, s2));
    TwoRowWindow(id, parse(s1).value, parse(s2).value, r1, r2, now - DayMillis, now);
    PerformanceIndependentOfRowOrder(cold, id, now - DayMillis, now, keys, [(id, parse(s1).value), (id, parse(s2).value)]);
    ScriptRowsReport(id, s1, s2);
  }
}
