/**
 * The two tables the services share (src/db/migrations/20240208_init.ts):
 * telemetry_cold, the history of every reading keyed by (device_id, timestamp),
 * and devices_hot, the latest reading of each device keyed by device_id.
 * A primary key is modelled as the key of a map, so each table holds at most
 * one row per key by construction.
 */
module Storage {
  import opened Wrappers
  import opened Telemetry

  /** The two values the services write to the `type` column. */
  const MeterType: string := "meter"
  const VehicleType: string := "vehicle"

  /** Primary key of telemetry_cold: device id and timestamp in milliseconds. */
  type Key = (string, int)

  /** A telemetry_cold row without its key; `kind` is the `type` column. */
  datatype ColdRow = ColdRow(kind: string, data: Payload)

  /** A devices_hot row without its key; `kind` is the `type` column. */
  datatype HotRow = HotRow(kind: string, latestData: Payload, updatedAt: int)

  /** The contents of both tables. */
  datatype Tables = Tables(cold: map<Key, ColdRow>, hot: map<string, HotRow>)

  /**
   * INSERT ... ON CONFLICT (device_id) MERGE (latest_data, updated_at): a new
   * device gets a fresh row; an existing one keeps its `type`, whatever kind is.
   */
  function Upsert(hot: map<string, HotRow>, deviceId: string, kind: string, data: Payload, updatedAt: int)
    : (h: map<string, HotRow>)
    ensures h.Keys == hot.Keys + {deviceId}
    ensures h[deviceId].latestData == data && h[deviceId].updatedAt == updatedAt
    ensures deviceId in hot ==> h[deviceId].kind == hot[deviceId].kind
    ensures deviceId !in hot ==> h[deviceId].kind == kind
    ensures forall d :: d in hot && d != deviceId ==> h[d] == hot[d]
  {
    if deviceId in hot then
      hot[deviceId := hot[deviceId].(latestData := data, updatedAt := updatedAt)]
    else
      hot[deviceId := HotRow(kind, data, updatedAt)]
  }

  /** Whether a history key belongs to deviceId and lies in [from, to], both ends included. */
  predicate InWindow(k: Key, deviceId: string, from: int, to: int) {
    k.0 == deviceId && from <= k.1 <= to
  }

  predicate Distinct(keys: seq<Key>) {
    forall i, j :: 0 <= i < j < |keys| ==> keys[i] != keys[j]
  }

  /** The rows stored at keys, in the order of keys. */
  function RowsAt(cold: map<Key, ColdRow>, keys: seq<Key>): (rows: seq<ColdRow>)
    requires forall k :: k in keys ==> k in cold
    ensures |rows| == |keys|
    ensures forall i :: 0 <= i < |keys| ==> rows[i] == cold[keys[i]]
  {
    if keys == [] then [] else RowsAt(cold, keys[..|keys| - 1]) + [cold[keys[|keys| - 1]]]
  }

  /** keys lists every history key of deviceId in [from, to] exactly once, in some order. */
  predicate WindowEnumeration(cold: map<Key, ColdRow>, deviceId: string, from: int, to: int, keys: seq<Key>) {
    && Distinct(keys)
    && (forall k :: k in keys ==> k in cold && InWindow(k, deviceId, from, to))
    && (forall k :: k in cold && InWindow(k, deviceId, from, to) ==> k in keys)
  }

  /** The database: both tables, updated in place. */
  class Database {
    var cold: map<Key, ColdRow>
    var hot: map<string, HotRow>

    constructor ()
      ensures cold == map[] && hot == map[]
    {
      cold := map[];
      hot := map[];
    }

    function Contents(): Tables
      reads this
    {
      Tables(cold, hot)
    }

    /** INSERT INTO telemetry_cold; a key already present is a primary-key violation. */
    method InsertCold(key: Key, row: ColdRow) returns (outcome: Outcome<Key>)
      modifies this
      ensures outcome == if key in old(cold) then Fail(key) else Pass
      ensures cold == if key in old(cold) then old(cold) else old(cold)[key := row]
      ensures hot == old(hot)
    {
      if key in cold {
        return Fail(key);
      }
      cold := cold[key := row];
      outcome := Pass;
    }

    /** The upsert into devices_hot. */
    method UpsertHot(deviceId: string, kind: string, data: Payload, updatedAt: int)
      modifies this
      ensures hot == Upsert(old(hot), deviceId, kind, data, updatedAt)
      ensures cold == old(cold)
    {
      hot := Upsert(hot, deviceId, kind, data, updatedAt);
    }

    /**
     * SELECT type, data FROM telemetry_cold WHERE device_id = deviceId AND
     * timestamp >= from AND timestamp <= to. The rows come in no particular
     * order; keys says which row is which.
     */
    method Select(deviceId: string, from: int, to: int) returns (rows: seq<ColdRow>, ghost keys: seq<Key>)
      ensures WindowEnumeration(cold, deviceId, from, to, keys)
      ensures rows == RowsAt(cold, keys)
    {
      rows, keys := [], [];
      var remaining := cold.Keys;
      while remaining != {}
        invariant remaining <= cold.Keys
        invariant Distinct(keys)
        invariant forall k :: k in keys ==> k in cold && InWindow(k, deviceId, from, to) && k !in remaining
        invariant forall k :: k in cold && InWindow(k, deviceId, from, to) ==> k in keys || k in remaining
        invariant rows == RowsAt(cold, keys)
        decreases remaining
      {
        var k :| k in remaining;
        if InWindow(k, deviceId, from, to) {
          assert (keys + [k])[..|keys|] == keys;
          keys := keys + [k];
          rows := rows + [cold[k]];
        }
        remaining := remaining - {k};
      }
    }
  }
}
