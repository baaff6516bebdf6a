/**
 * IngestService.ingest (src/services/ingestService.ts): classifies a validated
 * payload as a meter or a vehicle reading, then, in one transaction, appends it
 * to telemetry_cold and upserts the device's row in devices_hot.
 *
 * IngestStep is the specification of one call on the contents of both tables;
 * Run folds it over a sequence of calls made one after another.
 */
module Ingestion {
  import opened Wrappers
  import opened Telemetry
  import opened Storage

  /** The `type` written for a reading and the device id it is stored under. */
  datatype Classification = Classification(kind: string, deviceId: string)

  /** A payload is a meter reading exactly when it has a meterId field. */
  function Classify(p: Payload): (c: Classification)
    requires "meterId" in p ==> p["meterId"].Str?
    requires "meterId" !in p ==> IsString(p, "vehicleId")
    ensures c.kind == MeterType <==> "meterId" in p
    ensures c.kind == VehicleType <==> "meterId" !in p
    ensures "meterId" in p ==> c.deviceId == p["meterId"].s
    ensures "meterId" !in p ==> c.deviceId == p["vehicleId"].s
  {
    if "meterId" in p then Classification(MeterType, p["meterId"].s)
    else Classification(VehicleType, p["vehicleId"].s)
  }

  /** The instant the payload's timestamp denotes, as the history table stores it. */
  function Instant(p: Payload, parse: DateTimeParser): int
    requires IsDateTime(p, "timestamp", parse)
  {
    parse(p["timestamp"].s).value
  }

  /** The history key a payload is stored under. */
  function HistoryKey(p: Payload, parse: DateTimeParser): Key
    requires IsIngestPayload(p, parse)
  {
    (Classify(p).deviceId, Instant(p, parse))
  }

  /** The only way ingest fails here: the history key is taken, which aborts the transaction. */
  datatype IngestError = DuplicateKey(key: Key)

  /**
   * One ingest on the contents of both tables. It succeeds exactly when the
   * history key is free; then it adds exactly that history row and upserts the
   * device's latest state; otherwise neither table changes.
   */
  function IngestStep(t: Tables, p: Payload, parse: DateTimeParser, updatedAt: int): (r: (Tables, Outcome<IngestError>))
    requires IsIngestPayload(p, parse)
    ensures var key, c := HistoryKey(p, parse), Classify(p);
      && (r.1 == Pass <==> key !in t.cold)
      && (r.1 != Pass ==> r.1 == Fail(DuplicateKey(key)) && r.0 == t)
      && (r.1 == Pass ==>
          && r.0.cold.Keys == t.cold.Keys + {key}
          && |r.0.cold| == |t.cold| + 1
          && r.0.cold[key] == ColdRow(c.kind, p)
          && (forall k :: k in t.cold ==> r.0.cold[k] == t.cold[k])
          && r.0.hot.Keys == t.hot.Keys + {c.deviceId}
          && r.0.hot[c.deviceId].latestData == p
          && r.0.hot[c.deviceId].updatedAt == updatedAt
          && r.0.hot[c.deviceId].kind == (if c.deviceId in t.hot then t.hot[c.deviceId].kind else c.kind)
          && (forall d :: d in t.hot && d != c.deviceId ==> r.0.hot[d] == t.hot[d]))
  {
    var c := Classify(p);
    var key := HistoryKey(p, parse);
    if key in t.cold then
      (t, Fail(DuplicateKey(key)))
    else
      var cold := t.cold[key := ColdRow(c.kind, p)];
      assert cold.Keys == t.cold.Keys + {key};
      (Tables(cold, Upsert(t.hot, c.deviceId, c.kind, p, updatedAt)), Pass)
  }

  /** One call of ingest: a validated payload and the clock reading used for updated_at. */
  datatype Reading = Reading(data: Payload, updatedAt: int)

  predicate AllValid(batch: seq<Reading>, parse: DateTimeParser) {
    forall i :: 0 <= i < |batch| ==> IsIngestPayload(batch[i].data, parse)
  }

  /** No call of batch is for device d. */
  predicate NoneFor(batch: seq<Reading>, parse: DateTimeParser, d: string)
    requires AllValid(batch, parse)
  {
    forall i :: 0 <= i < |batch| ==> Classify(batch[i].data).deviceId != d
  }

  /** The tables after the calls of batch, in order, failed calls included. */
  function Run(t: Tables, batch: seq<Reading>, parse: DateTimeParser): Tables
    requires AllValid(batch, parse)
  {
    if batch == [] then t
    else
      var last := batch[|batch| - 1];
      IngestStep(Run(t, batch[..|batch| - 1], parse), last.data, parse, last.updatedAt).0
  }

  /** Running a + b is running a, then b. */
  lemma {:induction false} RunAppend(t: Tables, a: seq<Reading>, b: seq<Reading>, parse: DateTimeParser)
    requires AllValid(a, parse) && AllValid(b, parse)
    ensures AllValid(a + b, parse)
    ensures Run(t, a + b, parse) == Run(Run(t, a, parse), b, parse)
  {
    assert AllValid(a + b, parse) by {
      forall i | 0 <= i < |a + b| ensures IsIngestPayload((a + b)[i].data, parse) {
        if i >= |a| { assert (a + b)[i] == b[i - |a|]; }
      }
    }
    if b != [] {
      var b' := b[..|b| - 1];
      assert (a + b)[..|a + b| - 1] == a + b';
      RunAppend(t, a, b', parse);
    } else {
      assert a + b == a;
    }
  }

  /** Running a + [x] is running a, then making the call x. */
  lemma RunSnoc(t: Tables, a: seq<Reading>, x: Reading, parse: DateTimeParser)
    requires AllValid(a, parse) && IsIngestPayload(x.data, parse)
    ensures AllValid(a + [x], parse)
    ensures Run(t, a + [x], parse) == IngestStep(Run(t, a, parse), x.data, parse, x.updatedAt).0
  {
    assert (a + [x])[..|a + [x]| - 1] == a;
  }

  /** Calls for other devices leave a device's latest-state row as it was, or absent. */
  lemma {:induction false} RunKeepsOtherDevices(t: Tables, batch: seq<Reading>, parse: DateTimeParser, d: string)
    requires AllValid(batch, parse) && NoneFor(batch, parse, d)
    ensures d in Run(t, batch, parse).hot <==> d in t.hot
    ensures d in t.hot ==> Run(t, batch, parse).hot[d] == t.hot[d]
  {
    if batch != [] {
      assert AllValid(batch[..|batch| - 1], parse) && NoneFor(batch[..|batch| - 1], parse, d);
      RunKeepsOtherDevices(t, batch[..|batch| - 1], parse, d);
    }
  }

  /**
   * Last write wins by call order: once a call for d succeeds, d's latest state
   * is that call's payload until another call for d is made, whatever the
   * readings' own timestamps are.
   */
  lemma {:induction false} LastWriteWins(t: Tables, a: seq<Reading>, x: Reading, b: seq<Reading>, parse: DateTimeParser, d: string)
    requires AllValid(a, parse) && IsIngestPayload(x.data, parse) && AllValid(b, parse)
    requires d == Classify(x.data).deviceId
    requires IngestStep(Run(t, a, parse), x.data, parse, x.updatedAt).1 == Pass
    requires NoneFor(b, parse, d)
    ensures AllValid(a + [x] + b, parse)
    ensures d in Run(t, a + [x] + b, parse).hot
    ensures Run(t, a + [x] + b, parse).hot[d].latestData == x.data
    ensures Run(t, a + [x] + b, parse).hot[d].updatedAt == x.updatedAt
  {
    RunSnoc(t, a, x, parse);
    var mid := Run(t, a + [x], parse);
    RunKeepsOtherDevices(mid, b, parse, d);
    RunAppend(t, a + [x], b, parse);
  }

  /** Ingest never deletes or alters a history row, and adds at most one per call. */
  lemma {:induction false} HistoryAppendOnly(t: Tables, batch: seq<Reading>, parse: DateTimeParser)
    requires AllValid(batch, parse)
    ensures forall k :: k in t.cold ==> k in Run(t, batch, parse).cold && Run(t, batch, parse).cold[k] == t.cold[k]
    ensures |t.cold| <= |Run(t, batch, parse).cold| <= |t.cold| + |batch|
  {
    if batch != [] {
      HistoryAppendOnly(t, batch[..|batch| - 1], parse);
    }
  }

  /** The `type` of a device's latest-state row is fixed by its first successful ingest. */
  lemma {:induction false} DeviceTypeNeverRewritten(t: Tables, batch: seq<Reading>, parse: DateTimeParser, d: string)
    requires AllValid(batch, parse)
    requires d in t.hot
    ensures d in Run(t, batch, parse).hot && Run(t, batch, parse).hot[d].kind == t.hot[d].kind
  {
    if batch != [] {
      DeviceTypeNeverRewritten(t, batch[..|batch| - 1], parse, d);
    }
  }

  /**
   * Reusing a meter's id for a vehicle reading is not rejected: both calls
   * succeed, the row keeps the type `meter` and holds the vehicle payload.
   */
  lemma {:induction false} KindChangeAccepted(t: Tables, meter: Payload, vehicle: Payload, parse: DateTimeParser, at1: int, at2: int)
    requires IsIngestPayload(meter, parse) && "meterId" in meter
    requires IsIngestPayload(vehicle, parse) && "meterId" !in vehicle
    requires meter["meterId"].s == vehicle["vehicleId"].s
    requires Instant(meter, parse) != Instant(vehicle, parse)
    requires HistoryKey(meter, parse) !in t.cold && HistoryKey(vehicle, parse) !in t.cold
    requires meter["meterId"].s !in t.hot
    ensures var r1 := IngestStep(t, meter, parse, at1);
      var r2 := IngestStep(r1.0, vehicle, parse, at2);
      && r1.1 == Pass && r2.1 == Pass
      && r2.0.hot[meter["meterId"].s] == HotRow(MeterType, vehicle, at2)
  {
  }

  /**
   * A meter and a vehicle reading under one id at the same instant share a
   * history key: the second call fails and changes nothing.
   */
  lemma {:induction false} SameInstantConflict(t: Tables, meter: Payload, vehicle: Payload, parse: DateTimeParser, at1: int, at2: int)
    requires IsIngestPayload(meter, parse) && "meterId" in meter
    requires IsIngestPayload(vehicle, parse) && "meterId" !in vehicle
    requires meter["meterId"].s == vehicle["vehicleId"].s
    requires Instant(meter, parse) == Instant(vehicle, parse)
    requires HistoryKey(meter, parse) !in t.cold
    ensures var r1 := IngestStep(t, meter, parse, at1);
      var r2 := IngestStep(r1.0, vehicle, parse, at2);
      && r1.1 == Pass
      && r2 == (r1.0, Fail(DuplicateKey(HistoryKey(meter, parse))))
  {
  }

  /**
   * The service; it holds the database it writes to, and the conversion of a
   * timestamp string to the instant that database stores.
   */
  class IngestService {
    const db: Database
    const parse: DateTimeParser

    constructor (db: Database, parse: DateTimeParser)
      ensures this.db == db && this.parse == parse
    {
      this.db := db;
      this.parse := parse;
    }

    /**
     * Both writes run in one transaction. The history insert is issued first;
     * a taken key aborts the transaction before the upsert, and since the
     * insert wrote nothing, the rollback leaves both tables as they were.
     */
    method Ingest(data: Payload, updatedAt: int) returns (result: Outcome<IngestError>)
      requires IsIngestPayload(data, parse)
      modifies db
      ensures (db.Contents(), result) == IngestStep(old(db.Contents()), data, parse, updatedAt)
    {
      var c := Classify(data);
      var key := HistoryKey(data, parse);
      var inserted := db.InsertCold(key, ColdRow(c.kind, data));
      if inserted.Fail? {
        return Fail(DuplicateKey(key));
      }
      db.UpsertHot(c.deviceId, c.kind, data, updatedAt);
      result := Pass;
    }
  }
}
