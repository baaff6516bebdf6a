# Telemetry ingestion and fleet analytics — a Dafny model

This project models the core of a small telemetry backend. Energy meters and
electric vehicles post readings to it. The backend keeps two tables:

- `telemetry_cold`: an append-only history of every reading, keyed by
  `(device_id, timestamp)`.
- `devices_hot`: the latest reading of each device, keyed by `device_id`.

It then reports a vehicle's energy efficiency over the last 24 hours.

The model has three parts:

- **Payload validation** (`telemetry.dfy`, module `Telemetry`).
  - The two payload schemas, meter and vehicle, are predicates over a JSON-like
    `map<string, Value>`.
  - Parsing strips the fields a schema does not name.
  - The ingest schema is their union, tried meter-first.
- **Ingest** (`storage.dfy`, `ingestion.dfy`, modules `Storage` and `Ingestion`).
  - `Storage.Database` is a class. Its two `map` fields are the two tables.
  - `Ingestion.IngestService.Ingest` classifies the reading. It then inserts the
    history row and upserts the latest-state row, as one transaction. A duplicate
    history key aborts both writes.
  - The method is proved equal to the function `IngestStep`. `Run` folds
    `IngestStep` over a sequence of calls. Lemmas about `Run` state:
    - last write wins;
    - the history is append-only;
    - a device's type is never rewritten;
    - other devices are never touched.
- **Analytics** (`analytics.dfy`, module `Analytics`).
  - `AnalyticsService.GetPerformance` selects the device's history rows with
    timestamp in the inclusive window `[now - 86 400 000 ms, now]`. It then reduces
    them in one loop with four accumulators.
  - The loop is proved equal to the recursive `Sum` and `Count` functions, from
    which `Performance` builds the report.
  - Lemmas state:
    - which rows contribute to which total;
    - that the two divisions are zero-guarded;
    - that the report does not depend on the order the rows come back in;
    - that an empty window gives an all-zero report;
    - that the mean temperature lies between the lowest and highest reading.

`scenarios.dfy` (module `Scenarios`) replays the end-to-end script in
`scripts/verify.ts`. One device posts a meter reading and then a vehicle reading.
The report has efficiency 8.5 / 10.5 and a mean temperature of 35.

Instants are integers, in milliseconds since the epoch. The validator's
date-time check is a parameter, `parse: string -> Option<int>`. It says which
strings are date-times and which instant each denotes. The clock is a parameter
too: `now` for analytics and `updatedAt` for ingest. Numbers are `real`.

Two consequences of the code are worth stating, because a reader might expect otherwise:

- The upsert never rejects a change of device kind. It merges only
  `latest_data` and `updated_at`, so the stored type stays as it was first
  written (`KindChangeAccepted`).
- A meter reading and a vehicle reading of one device at the same instant share
  the history key `(device_id, timestamp)`. The second call therefore fails with
  a duplicate key and changes nothing (`SameInstantConflict`). That is why the
  replay of the end-to-end script uses two distinct instants.

## Model

| member | source | states |
|---|---|---|
| Telemetry.Strip | src/schemas/telemetry.ts:4-18 | a parsed object holds exactly the body's fields that the schema names, with their values unchanged |
| Telemetry.ParseMeter | src/schemas/telemetry.ts:4-9 | the meter schema accepts exactly when meterId is a string, kwhConsumedAc and voltage are numbers and timestamp is a date-time; the result holds exactly the four schema fields, taken from the body |
| Telemetry.ParseVehicle | src/schemas/telemetry.ts:12-18 | the vehicle schema accepts exactly when vehicleId is a string, soc is a number in [0, 100], kwhDeliveredDc and batteryTemp are numbers and timestamp is a date-time; the result holds exactly the five schema fields |
| Telemetry.ParseIngest | src/schemas/telemetry.ts:24 | the union accepts exactly when one of the two schemas does and rejects a body that fits neither; the result is a valid ingest payload; it carries meterId exactly when the meter schema accepted, because that schema is tried first |
| Telemetry.SocClosedRange | src/schemas/telemetry.ts:14 | with every other field valid, a vehicle body is accepted exactly when 0 <= soc <= 100, so both ends are included |
| Storage.Upsert | src/services/ingestService.ts:23-31 | after the upsert the device has a row holding the new latest_data and updated_at; an existing row keeps its type, a new row takes the reading's type; every other device's row is unchanged and no other key appears |
| Storage.RowsAt | src/services/analyticsService.ts:14-18 | the rows the query returns are the stored rows at the listed keys, in that order |
| Storage.Database.constructor | src/db/migrations/20240208_init.ts:6-24 | both tables start empty |
| Storage.Database.InsertCold | src/services/ingestService.ts:15-20 | the insert fails and changes nothing when the (device_id, timestamp) key is taken (the composite primary key); otherwise it adds exactly that row; the latest-state table is untouched |
| Storage.Database.UpsertHot | src/services/ingestService.ts:23-31 | the latest-state table becomes Upsert of the old one; the history table is untouched |
| Storage.Database.Select | src/services/analyticsService.ts:14-18 | the rows returned are those at keys that list every history key of the device with from <= timestamp <= to exactly once, both ends included; the method writes nothing |
| Ingestion.Classify | src/services/ingestService.ts:8-10 | the type is 'meter' exactly when the payload has a meterId field and 'vehicle' otherwise; the device id is the meterId of a meter reading and the vehicleId of any other |
| Ingestion.IngestStep | src/services/ingestService.ts:13-32 | the call succeeds exactly when the history key is free; on failure it reports DuplicateKey and neither table changes; on success the history gains exactly one row (type and full payload) and keeps every old row, and the latest-state row of the device holds the payload and updated_at, keeps an existing type and leaves other devices alone |
| Ingestion.IngestService.constructor | src/services/ingestService.ts:5 | the service writes to the database it is given, with that database's conversion of timestamp strings to instants |
| Ingestion.IngestService.Ingest | src/services/ingestService.ts:7-33 | the new contents of both tables and the outcome are exactly IngestStep of the old contents: both writes or neither |
| Ingestion.RunAppend | src/services/ingestService.ts:7-33 | running two batches of calls one after the other is running their concatenation |
| Ingestion.RunKeepsOtherDevices | src/services/ingestService.ts:23-31 | calls for other devices never create, change or remove a device's latest-state row |
| Ingestion.LastWriteWins | src/services/ingestService.ts:23-31 | after a successful call for a device, followed by any calls for other devices, the device's latest_data and updated_at are those of that call, whatever the readings' own timestamps |
| Ingestion.HistoryAppendOnly | src/services/ingestService.ts:15-20 | no sequence of calls removes or alters a history row, and each call adds at most one |
| Ingestion.DeviceTypeNeverRewritten | src/services/ingestService.ts:30-31 | once a device has a latest-state row, its type stays the same through any later calls |
| Ingestion.KindChangeAccepted | src/services/ingestService.ts:30-31 | a vehicle reading for a device first stored as a meter is accepted at a new instant; the latest data becomes the vehicle payload and the type stays 'meter' |
| Ingestion.SameInstantConflict | src/services/ingestService.ts:15-20 | a meter and a vehicle reading with the same device id and instant collide on the history key: the second call fails with DuplicateKey and changes nothing |
| Analytics.NumberOrZero | src/services/analyticsService.ts:35 | `value || 0`: the field's number when it holds one, else 0 |
| Analytics.Ratio | src/services/analyticsService.ts:49 | with no AC consumed the ratio is 0; otherwise the ratio times totalAc is totalDc |
| Analytics.Mean | src/services/analyticsService.ts:50 | with no temperature readings the mean is 0; otherwise the mean times the count is the sum |
| Analytics.Performance | src/services/analyticsService.ts:49-59 | the report echoes the vehicle id with period '24h'; the ratio is 0 when no AC was consumed and the mean is 0 when no row carried a temperature |
| Analytics.SumReordered | src/services/analyticsService.ts:14-18 | a sum over the rows at the keys is the same for every ordering of the same keys |
| Analytics.PerformanceIndependentOfRowOrder | src/services/analyticsService.ts:14-18 | any two enumerations of the window give the same report, so the order the query returns rows in does not matter |
| Analytics.NoMeterRowsZeroEfficiency | src/services/analyticsService.ts:33-35 | without meter rows the AC total and the efficiency ratio are 0 |
| Analytics.NoVehicleRowsZeroDcAndTemp | src/services/analyticsService.ts:37-45 | without vehicle rows the DC total, the ratio and the mean temperature are 0 |
| Analytics.EmptyWindowReport | src/services/analyticsService.ts:20-59 | when the device has no history rows in the window, the report is all zeros with the device id and '24h' |
| Analytics.MeterRowOnlyAffectsAc | src/services/analyticsService.ts:33-35 | a meter row adds its kwhConsumedAc (0 if missing) to the AC total and changes neither the DC total nor the temperature sum or count |
| Analytics.VehicleRowOnlyAffectsDcAndTemp | src/services/analyticsService.ts:37-45 | a vehicle row adds its kwhDeliveredDc (0 if missing) to the DC total and leaves the AC total alone; it adds to the temperature sum and count exactly when batteryTemp is present |
| Analytics.OtherTypeIgnored | src/services/analyticsService.ts:33-47 | a row whose type is neither 'meter' nor 'vehicle' does not change the report |
| Analytics.CountIsCardinality | src/services/analyticsService.ts:42-45 | the temperature count is the number of rows satisfying the predicate, i.e. of vehicle rows carrying batteryTemp |
| Analytics.TempSumAtLeast | src/services/analyticsService.ts:42-45 | when every temperature reading is at least lo, the temperature sum is at least lo times their number |
| Analytics.TempSumAtMost | src/services/analyticsService.ts:42-45 | when every temperature reading is at most hi, the temperature sum is at most hi times their number |
| Analytics.MeanBounds | src/services/analyticsService.ts:50 | a mean of a sum between lo·count and hi·count lies in [lo, hi] |
| Analytics.AverageWithinBounds | src/services/analyticsService.ts:50 | when some row carries a temperature, avgBatteryTemp lies between the lowest and the highest reading |
| Analytics.AnalyticsService.constructor | src/services/analyticsService.ts:5 | the service reads the database it is given |
| Analytics.AnalyticsService.GetPerformance | src/services/analyticsService.ts:7-60 | the rows reduced are exactly the device's history rows in [now - 86 400 000, now], both ends included, and the loop's report equals Performance of those rows, in whatever order they are listed; the database is not written |
| Scenarios.MeterBodyAccepted | scripts/verify.ts:10-15 | the script's meter body passes validation unchanged and is stored as a meter reading of its device at its instant |
| Scenarios.VehicleBodyAccepted | scripts/verify.ts:26-32 | the script's vehicle body passes validation unchanged and is stored as a vehicle reading of the same device |
| Scenarios.FirstCall | src/services/ingestService.ts:13-31 | a first call on empty tables stores the reading in both tables |
| Scenarios.SecondCall | src/services/ingestService.ts:13-31 | a second call for the same device at a new instant adds a history row and replaces latest_data and updated_at but not the type |
| Scenarios.ScriptTablesContents | scripts/verify.ts:10-39 | after the script's two calls at distinct instants the history holds both rows and the latest state is the vehicle body under type 'meter' |
| Scenarios.ScriptRowsReport | scripts/verify.ts:29 | one meter row of 10.5 kWh and one vehicle row of 8.5 kWh at 35 degrees give the totals 10.5 and 8.5, the ratio 8.5 / 10.5 and the mean 35 |
| Scenarios.ScriptScenario | scripts/verify.ts:44-47 | the report over a 24-hour window holding both instants is that report, whatever order the rows come back in; its efficiency ratio is positive, which is what the script checks |

## Left out

- The date-time grammar of the schema's `.datetime()` is not modelled. It is the
  parameter `parse`, which also stands for the database's conversion of the
  string to a stored instant. Two strings for the same instant therefore collide
  on the history key, as they do in the database.
- Instants are integer milliseconds. Rounding by the database's timestamp
  precision is not modelled.
- Numbers are `real`. IEEE-754 rounding, `NaN` and infinities are not modelled.
- Analytics.NumberOrZero: a stored value that is NaN or not a number is not
  modelled. Validation rejects both; in the model any non-number counts as 0.
  A stored 0 gives 0, as `0 || 0` does.
- Analytics.TempOf: a `batteryTemp` that is present but not a number counts as 0.
  The source adds it as it is, but such a value cannot pass validation.
- The re-parse of rows whose `data` comes back as a JSON string
  (src/services/analyticsService.ts:29-31) is not modelled. Stored payloads are
  already structured maps.
- The validator's error reporting is not modelled. That covers the list of
  issues and the union's per-alternative errors; a rejection is `None`.
- The clock is not modelled. `new Date()` for the window end and for `updated_at`
  is passed in as `now` and `updatedAt`.
- Concurrency is not modelled. Calls run one at a time: transaction isolation
  between concurrent requests and database failures other than a duplicate
  history key are outside the model.
- The HTTP routes (src/routes/api.ts), the server start-up and health check
  (src/index.ts), the connection configuration (src/db/knexfile.ts) and the seed
  script (scripts/seed.ts) are not modelled. They are transport, configuration
  and process plumbing around the modelled operations; src/routes/api.ts is the
  caller of ParseIngest, Ingest and GetPerformance.
- Ingestion.IngestStep: the column limits of the tables are not modelled. knex's
  `string` column makes `device_id` a `varchar(255)`
  (src/db/migrations/20240208_init.ts:7,16), and Postgres refuses a NUL
  character in text and jsonb. A validated payload whose device id is longer
  than 255 characters, or which holds a NUL, therefore fails in the database
  and rolls back, while `IngestStep` returns `Pass`.
- The migration is not modelled as code. Only its two keys are modelled, as the
  keys of the two maps.
