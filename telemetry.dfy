/**
 * The two telemetry payload shapes and the union schema that validates an
 * incoming request body before it is ingested (src/schemas/telemetry.ts).
 *
 * A request body is a JSON object, modelled as a map from field name to value.
 * Parsing with an object schema keeps only the schema's own fields, so a parsed
 * payload holds exactly the fields of the shape that accepted it.
 */
module Telemetry {
  import opened Wrappers

  /** A JSON value, as far as the schemas distinguish it. */
  datatype Value = Str(s: string) | Num(n: real) | Other

  /** A JSON object: field name to value. */
  type Payload = map<string, Value>

  /**
   * The instant an ISO-8601 date-time string denotes, in milliseconds since the
   * epoch, or None when the string is not a date-time. The date-time grammar is
   * not part of this model, so every member that needs it takes one.
   */
  type DateTimeParser = string -> Option<int>

  predicate IsString(p: Payload, field: string) {
    field in p && p[field].Str?
  }

  predicate IsNumber(p: Payload, field: string) {
    field in p && p[field].Num?
  }

  predicate IsDateTime(p: Payload, field: string, parse: DateTimeParser) {
    IsString(p, field) && parse(p[field].s).Some?
  }

  const MeterFields: set<string> := {"meterId", "kwhConsumedAc", "voltage", "timestamp"}
  const VehicleFields: set<string> := {"vehicleId", "soc", "kwhDeliveredDc", "batteryTemp", "timestamp"}

  /** MeterPayloadSchema: AC input of an energy meter. */
  predicate MeterShape(p: Payload, parse: DateTimeParser) {
    && IsString(p, "meterId")
    && IsNumber(p, "kwhConsumedAc")
    && IsNumber(p, "voltage")
    && IsDateTime(p, "timestamp", parse)
  }

  /** VehiclePayloadSchema: DC output and battery state of a vehicle; soc is a percentage. */
  predicate VehicleShape(p: Payload, parse: DateTimeParser) {
    && IsString(p, "vehicleId")
    && IsNumber(p, "soc") && 0.0 <= p["soc"].n <= 100.0
    && IsNumber(p, "kwhDeliveredDc")
    && IsNumber(p, "batteryTemp")
    && IsDateTime(p, "timestamp", parse)
  }

  /** What a successful parse of the ingest schema can produce. */
  predicate IsIngestPayload(p: Payload, parse: DateTimeParser) {
    || (MeterShape(p, parse) && p.Keys == MeterFields)
    || (VehicleShape(p, parse) && p.Keys == VehicleFields)
  }

  /** Drops every field not named in fields. */
  function Strip(p: Payload, fields: set<string>): (q: Payload)
    ensures q.Keys == p.Keys * fields
    ensures forall f :: f in q ==> q[f] == p[f]
  {
    map f | f in p && f in fields :: p[f]
  }

  /** MeterPayloadSchema.parse, with its error reduced to None. */
  function ParseMeter(body: Payload, parse: DateTimeParser): (r: Option<Payload>)
    ensures r.Some? <==> MeterShape(body, parse)
    ensures r.Some? ==> r.value.Keys == MeterFields && MeterShape(r.value, parse)
    ensures r.Some? ==> forall f :: f in r.value ==> f in body && r.value[f] == body[f]
  {
    if MeterShape(body, parse) then Some(Strip(body, MeterFields)) else None
  }

  /** VehiclePayloadSchema.parse, with its error reduced to None. */
  function ParseVehicle(body: Payload, parse: DateTimeParser): (r: Option<Payload>)
    ensures r.Some? <==> VehicleShape(body, parse)
    ensures r.Some? ==> r.value.Keys == VehicleFields && VehicleShape(r.value, parse)
    ensures r.Some? ==> forall f :: f in r.value ==> f in body && r.value[f] == body[f]
  {
    if VehicleShape(body, parse) then Some(Strip(body, VehicleFields)) else None
  }

  /**
   * IngestPayloadSchema.parse: the union of the two shapes, meter first. A body
   * that satisfies both shapes is parsed as a meter payload.
   */
  function ParseIngest(body: Payload, parse: DateTimeParser): (r: Option<Payload>)
    ensures r.Some? <==> MeterShape(body, parse) || VehicleShape(body, parse)
    ensures r.Some? ==> IsIngestPayload(r.value, parse)
    ensures r.Some? ==> ("meterId" in r.value <==> MeterShape(body, parse))
    ensures r.Some? ==> forall f :: f in r.value ==> f in body && r.value[f] == body[f]
  {
    match ParseMeter(body, parse)
    case Some(p) => Some(p)
    case None => ParseVehicle(body, parse)
  }

  /** The soc range is closed: both 0 and 100 are accepted, nothing outside them is. */
  lemma SocClosedRange(body: Payload, parse: DateTimeParser, soc: real)
    requires IsString(body, "vehicleId") && IsNumber(body, "kwhDeliveredDc")
    requires IsNumber(body, "batteryTemp") && IsDateTime(body, "timestamp", parse)
    ensures ParseVehicle(body["soc" := Num(soc)], parse).Some? <==> 0.0 <= soc <= 100.0
  {
    var b := body["soc" := Num(soc)];
    assert IsString(b, "vehicleId") && IsNumber(b, "kwhDeliveredDc");
    assert IsNumber(b, "batteryTemp") && IsDateTime(b, "timestamp", parse);
  }
}
