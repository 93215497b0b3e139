/**
 * Saving and deleting a device (models/device.js:413-522). The database is a
 * snapshot store: a transaction either commits every statement or, on the
 * first failure, rolls back and leaves the store as it was. Which statement
 * fails is an input; the SQL text, the varbind cache and the history tables
 * are not part of this model.
 */
module Persistence {
  import opened Wrappers
  import opened Js
  import opened Devices
  import opened Poll
  import opened Scheduling
  import Seqs

  /** A metric of `json_varbind_list` as `JSON.parse` hands it over. */
  type Fields = map<string, JsValue>

  /** A `varbinds` row: the columns `save` writes, and the check that owns it, if any. */
  datatype StoredMetric = StoredMetric(deviceId: int, updated: int, checkId: Option<int>, columns: Fields)

  /**
   * A failing statement of the save transaction, by where it falls:
   * `begin transaction` and the device upsert run before the metric list is
   * parsed, the metric upserts, the stale select and delete and the commit
   * after it.
   */
  datatype Failure = BeforeParse(message: string) | AfterParse(message: string)

  /** The row a metric names, when its `id` is a non-zero whole number. */
  function IdOf(f: Fields): Option<int> {
    if "id" in f && f["id"].Num? && f["id"].n.Finite? && f["id"].n.x != 0.0 && f["id"].n.x.Floor as real == f["id"].n.x
    then Some(f["id"].n.x.Floor) else None
  }

  /**
   * The `map` over the parsed metrics: a new device's metrics lose their ids,
   * a falsy name becomes `Unnamed`, and every metric is stamped with the
   * device's id and the save's time.
   */
  function Prepare(v: Fields, isNew: bool, deviceId: int, time: int): Fields {
    var kept := if isNew && "id" in v && Truthy(v["id"]) then v - {"id"} else v;
    var name := if "name" in v && Truthy(v["name"]) then v["name"] else Str("Unnamed");
    kept["name" := name]["device_id" := Num(Finite(deviceId as real))]["updated" := Num(Finite(time as real))]
  }

  /** What a prepared metric looks like, key by key. */
  lemma PrepareSpec(v: Fields, isNew: bool, deviceId: int, time: int, key: string)
    ensures var p := Prepare(v, isNew, deviceId, time);
      && p["device_id"] == Num(Finite(deviceId as real)) && p["updated"] == Num(Finite(time as real))
      && Truthy(p["name"]) && ("name" in v && Truthy(v["name"]) ==> p["name"] == v["name"])
      && ("id" in p <==> "id" in v && !(isNew && Truthy(v["id"])))
      && (isNew ==> IdOf(p).None?)
      && (key !in {"id", "name", "device_id", "updated"} ==> (key in p <==> key in v) && (key in v ==> p[key] == v[key]))
  {
  }

  /** Preparing the whole list, in order. */
  method PrepareAll(list: seq<Fields>, isNew: bool, deviceId: int, time: int) returns (r: seq<Fields>)
    ensures |r| == |list| && forall i :: 0 <= i < |list| ==> r[i] == Prepare(list[i], isNew, deviceId, time)
  {
    r := [];
    for i := 0 to |list|
      invariant |r| == i && forall j :: 0 <= j < i ==> r[j] == Prepare(list[j], isNew, deviceId, time)
    {
      r := r + [Prepare(list[i], isNew, deviceId, time)];
    }
  }

  /** `device_id = ? and updated <> ? and check_id is null`: a metric the save did not write. */
  predicate Stale(m: StoredMetric, deviceId: int, time: int) {
    m.deviceId == deviceId && m.updated != time && m.checkId.None?
  }

  /** The columns `db.upsert` writes for a metric. */
  const MetricColumns: set<string> := {"device_id", "name", "protocol", "json_address", "divider", "value_type",
                                       "json_status_conditions", "tags", "updated"}

  function Project(f: Fields, keys: set<string>): Fields {
    map k | k in f && k in keys :: f[k]
  }

  /**
   * The two tables a save touches. Each keeps the next id its auto-increment
   * hands out; the id 0 never names a row, since `!this.id` marks a new device.
   */
  class Store {
    var devices: map<int, Attributes>
    var metrics: map<int, StoredMetric>
    var nextDevice: int
    var nextMetric: int

    ghost predicate Valid()
      reads this
    {
      && nextDevice > 0 && nextMetric > 0
      && (forall id :: id in devices ==> id < nextDevice)
      && (forall id :: id in metrics ==> id < nextMetric)
    }

    constructor ()
      ensures Valid() && devices == map[] && metrics == map[]
    {
      devices, metrics, nextDevice, nextMetric := map[], map[], 1, 1;
    }

    /** `db.upsert(device, columns)`: a new device gets a fresh id, a known one overwrites its row. */
    method UpsertDevice(a: Attributes) returns (id: int)
      requires Valid()
      modifies this`devices, this`nextDevice
      ensures Valid() && id != 0
      ensures a.id == 0 ==> id == old(nextDevice)
      ensures a.id != 0 ==> id == a.id
      ensures devices == old(devices)[id := a.(id := id)]
    {
      id := a.id;
      if id == 0 {
        id := nextDevice;
      }
      if id >= nextDevice {
        nextDevice := id + 1;
      }
      devices := devices[id := a.(id := id)];
    }

    /**
     * `db.upsert(varbind, columns)`: a metric with an id overwrites that row,
     * keeping the check that owns it; one without gets a fresh id.
     */
    method UpsertMetric(f: Fields, deviceId: int, time: int) returns (id: int)
      requires Valid()
      modifies this`metrics, this`nextMetric
      ensures Valid() && id in metrics
      ensures metrics[id] == StoredMetric(deviceId, time, if IdOf(f).Some? && IdOf(f).value in old(metrics)
                                                         then old(metrics)[IdOf(f).value].checkId else None,
                                          Project(f, MetricColumns))
      ensures IdOf(f).Some? ==> id == IdOf(f).value
      ensures IdOf(f).None? ==> id == old(nextMetric) && id !in old(metrics)
      ensures metrics == old(metrics)[id := metrics[id]]
    {
      var row := StoredMetric(deviceId, time, None, Project(f, MetricColumns));
      if IdOf(f).Some? {
        id := IdOf(f).value;
        if id in metrics {
          row := row.(checkId := metrics[id].checkId);
        }
      } else {
        id := nextMetric;
      }
      if id >= nextMetric {
        nextMetric := id + 1;
      }
      metrics := metrics[id := row];
    }

    /** The upsert loop over the prepared metrics; a later metric with the same id overwrites an earlier one. */
    method UpsertAll(list: seq<Fields>, deviceId: int, time: int) returns (ids: seq<int>)
      requires Valid()
      modifies this`metrics, this`nextMetric
      ensures Valid() && |ids| == |list|
      ensures forall j :: 0 <= j < |ids| ==> ids[j] in metrics && metrics[ids[j]].deviceId == deviceId && metrics[ids[j]].updated == time
      ensures forall j :: 0 <= j < |ids| && (forall l :: j < l < |ids| ==> ids[l] != ids[j]) ==>
        metrics[ids[j]].columns == Project(list[j], MetricColumns)
      ensures forall j :: 0 <= j < |ids| && IdOf(list[j]).Some? ==> ids[j] == IdOf(list[j]).value
      ensures forall k :: k in metrics <==> k in old(metrics) || k in ids
      ensures forall k :: k in old(metrics) && k !in ids ==> metrics[k] == old(metrics)[k]
    {
      ids := [];
      for i := 0 to |list|
        invariant Valid() && |ids| == i
        invariant forall j :: 0 <= j < i ==> ids[j] in metrics && metrics[ids[j]].deviceId == deviceId && metrics[ids[j]].updated == time
        invariant forall j :: 0 <= j < i && (forall l :: j < l < i ==> ids[l] != ids[j]) ==>
          metrics[ids[j]].columns == Project(list[j], MetricColumns)
        invariant forall j :: 0 <= j < i && IdOf(list[j]).Some? ==> ids[j] == IdOf(list[j]).value
        invariant forall k :: k in metrics <==> k in old(metrics) || k in ids
        invariant forall k :: k in old(metrics) && k !in ids ==> metrics[k] == old(metrics)[k]
      {
        ghost var prior := metrics;
        var id := UpsertMetric(list[i], deviceId, time);
        UpsertStep(prior, metrics, ids, id, list, i, deviceId, time);
        ids := ids + [id];
      }
    }

    /** The `select … updated <> ? and check_id is null` and the `delete … where id in (…)`. */
    method DropStale(deviceId: int, time: int)
      requires Valid()
      modifies this`metrics
      ensures Valid()
      ensures forall k :: k in metrics <==> k in old(metrics) && !Stale(old(metrics)[k], deviceId, time)
      ensures forall k :: k in metrics ==> metrics[k] == old(metrics)[k]
    {
      metrics := map k | k in metrics && !Stale(metrics[k], deviceId, time) :: metrics[k];
    }

    /**
     * The transaction of `device.save()`: the device row is written (a new
     * device gets an id), the parsed metrics are prepared and written, and the
     * device's metrics that were not written now and that no check owns are
     * deleted. A metric list that does not parse or a failing statement
     * rolls everything back and leaves the store as it was; a statement that
     * fails before the parse is reported even when the list would not have
     * parsed. Once the list has parsed, the device's `json_varbind_list` is
     * deleted (the empty text here), whatever happens next; after a commit
     * the device carries its id and its status is reset to 0.
     */
    method Save(d: Device, parsed: Result<seq<Fields>, string>, time: int, dbError: Option<Failure>)
      returns (r: Result<int, string>, written: seq<int>)
      requires Valid()
      modifies this, d`attrs, d`status, d`prevStatus
      ensures Valid()
      ensures r.Err? <==> parsed.Err? || dbError.Some?
      ensures r.Err? ==> devices == old(devices) && metrics == old(metrics)
      ensures r.Err? ==> d.status == old(d.status) && d.prevStatus == old(d.prevStatus)
      ensures dbError.Some? && dbError.value.BeforeParse? ==> r == Err(dbError.value.message) && d.attrs == old(d.attrs)
      ensures parsed.Err? && !(dbError.Some? && dbError.value.BeforeParse?) ==>
        r == Err(parsed.error) && d.attrs == old(d.attrs)
      ensures parsed.Ok? && dbError.Some? && dbError.value.AfterParse? ==>
        r == Err(dbError.value.message) && d.attrs == old(d.attrs).(jsonVarbindList := "")
      ensures r.Ok? ==> r.value == d.attrs.id != 0 && d.attrs == old(d.attrs).(id := d.attrs.id, jsonVarbindList := "")
      ensures r.Ok? && old(d.attrs.id) != 0 ==> d.attrs.id == old(d.attrs.id)
      ensures r.Ok? ==> devices == old(devices)[d.attrs.id := old(d.attrs).(id := d.attrs.id)]
      ensures r.Ok? ==> d.status == 0 && d.prevStatus == Some(0)
      ensures r.Ok? ==> SavedMetrics(old(metrics), metrics, written, parsed.value,
                                     old(d.attrs.id) == 0, d.attrs.id, time)
    {
      var devices0, metrics0, nextDevice0, nextMetric0 := devices, metrics, nextDevice, nextMetric;
      var isNew := d.attrs.id == 0;
      var id := UpsertDevice(d.attrs);
      if dbError.Some? && dbError.value.BeforeParse? {
        devices, metrics, nextDevice, nextMetric := devices0, metrics0, nextDevice0, nextMetric0;
        return Err(dbError.value.message), [];
      }
      if parsed.Err? {
        devices, metrics, nextDevice, nextMetric := devices0, metrics0, nextDevice0, nextMetric0;
        return Err(parsed.error), [];
      }
      var prepared := PrepareAll(parsed.value, isNew, id, time);
      d.attrs := d.attrs.(jsonVarbindList := "");
      written := UpsertAll(prepared, id, time);
      ghost var upserted := metrics;
      DropStale(id, time);
      if dbError.Some? {
        devices, metrics, nextDevice, nextMetric := devices0, metrics0, nextDevice0, nextMetric0;
        return Err(dbError.value.message), [];
      }
      SavedMetricsHold(metrics0, upserted, metrics, written, parsed.value, prepared, isNew, id, time);
      d.attrs := d.attrs.(id := id);
      d.prevStatus := Some(0);
      d.status := 0;
      r := Ok(id);
    }

    /**
     * `updateVarbindList`'s filter over the varbind rows: every row of the
     * device, each once, made into a metric by `make`; the order of the list
     * is left open.
     */
    method MetricsOf(id: int, make: (int, StoredMetric) -> Varbind) returns (vs: seq<Varbind>, ids: seq<int>)
      ensures |ids| == |vs| && Seqs.NoDups(ids)
      ensures forall i :: 0 <= i < |ids| ==>
        ids[i] in metrics && metrics[ids[i]].deviceId == id && vs[i] == make(ids[i], metrics[ids[i]])
      ensures forall k :: k in metrics && metrics[k].deviceId == id ==> k in ids
    {
      vs, ids := [], [];
      var todo := metrics.Items;
      while todo != {}
        invariant todo <= metrics.Items
        invariant |ids| == |vs| && forall a, b :: 0 <= a < b < |ids| ==> ids[a] != ids[b]
        invariant forall i :: 0 <= i < |ids| ==>
          ids[i] in metrics && (ids[i], metrics[ids[i]]) !in todo
          && metrics[ids[i]].deviceId == id && vs[i] == make(ids[i], metrics[ids[i]])
        invariant forall k :: k in metrics && (k, metrics[k]) !in todo && metrics[k].deviceId == id ==> k in ids
        decreases todo
      {
        var item :| item in todo;
        var (key, row) := item;
        assert key in metrics && metrics[key] == row;
        if row.deviceId == id {
          vs, ids := vs + [make(key, row)], ids + [key];
        }
        todo := todo - {item};
      }
    }

    /** `device.delete()`'s transaction: the device's metrics and its row go, or nothing does. */
    method Delete(id: int, dbError: Option<string>) returns (r: Result<int, string>)
      requires Valid()
      modifies this`devices, this`metrics
      ensures Valid()
      ensures dbError.Some? ==> r == Err(dbError.value) && devices == old(devices) && metrics == old(metrics)
      ensures dbError.None? ==> r == Ok(id) && devices == old(devices) - {id}
      ensures dbError.None? ==> forall k :: k in metrics <==> k in old(metrics) && old(metrics)[k].deviceId != id
      ensures forall k :: k in metrics ==> metrics[k] == old(metrics)[k]
    {
      var devices0, metrics0 := devices, metrics;
      metrics := map k | k in metrics && metrics[k].deviceId != id :: metrics[k];
      devices := devices - {id};
      if dbError.Some? {
        devices, metrics := devices0, metrics0;
        return Err(dbError.value);
      }
      r := Ok(id);
    }
  }

  /** One round of the upsert loop keeps its invariant. */
  lemma UpsertStep(prior: map<int, StoredMetric>, metrics: map<int, StoredMetric>, ids: seq<int>, id: int,
                   list: seq<Fields>, i: nat, deviceId: int, time: int)
    requires i < |list| && |ids| == i
    requires forall j :: 0 <= j < i ==> ids[j] in prior && prior[ids[j]].deviceId == deviceId && prior[ids[j]].updated == time
    requires forall j :: 0 <= j < i && (forall l :: j < l < i ==> ids[l] != ids[j]) ==>
      prior[ids[j]].columns == Project(list[j], MetricColumns)
    requires id in metrics && metrics == prior[id := metrics[id]]
    requires metrics[id].deviceId == deviceId && metrics[id].updated == time
    requires metrics[id].columns == Project(list[i], MetricColumns)
    ensures var next := ids + [id];
      && (forall j :: 0 <= j < i + 1 ==> next[j] in metrics && metrics[next[j]].deviceId == deviceId && metrics[next[j]].updated == time)
      && (forall j :: 0 <= j < i + 1 && (forall l :: j < l < i + 1 ==> next[l] != next[j]) ==>
            metrics[next[j]].columns == Project(list[j], MetricColumns))
  {
    var next := ids + [id];
    forall j | 0 <= j < i + 1 && (forall l :: j < l < i + 1 ==> next[l] != next[j])
      ensures metrics[next[j]].columns == Project(list[j], MetricColumns)
    {
      if j < i {
        assert next[i] != next[j];
        assert forall l :: j < l < i ==> ids[l] != ids[j] by {
          forall l | j < l < i ensures ids[l] != ids[j] {
            assert next[l] == ids[l];
          }
        }
      }
    }
  }

  /**
   * What a committed save leaves in `varbinds`: every parsed metric has a row
   * of the device stamped with the save's time (the last of several metrics
   * with one id holds its prepared columns), a metric with an id keeps it, no
   * row of the device is stale, and every other row is kept exactly when it
   * is not stale.
   */
  ghost predicate SavedMetrics(before: map<int, StoredMetric>, after: map<int, StoredMetric>, written: seq<int>,
                               parsed: seq<Fields>, isNew: bool, id: int, time: int)
  {
    && |written| == |parsed|
    && (forall j :: 0 <= j < |written| ==>
          written[j] in after && after[written[j]].deviceId == id && after[written[j]].updated == time)
    && (forall j :: 0 <= j < |written| && (forall l :: j < l < |written| ==> written[l] != written[j]) ==>
          after[written[j]].columns == Project(Prepare(parsed[j], isNew, id, time), MetricColumns))
    && (forall j :: 0 <= j < |written| && !isNew && IdOf(parsed[j]).Some? ==> written[j] == IdOf(parsed[j]).value)
    && (forall k :: k in after ==> !Stale(after[k], id, time))
    && (forall k :: k in before && k !in written ==>
          (k in after <==> !Stale(before[k], id, time)) && (k in after ==> after[k] == before[k]))
    && (forall k :: k in after ==> k in before || k in written)
  }

  lemma SavedMetricsHold(before: map<int, StoredMetric>, upserted: map<int, StoredMetric>, after: map<int, StoredMetric>,
                         written: seq<int>, parsed: seq<Fields>, prepared: seq<Fields>, isNew: bool, id: int, time: int)
    requires |prepared| == |parsed| == |written|
    requires forall i :: 0 <= i < |parsed| ==> prepared[i] == Prepare(parsed[i], isNew, id, time)
    requires forall j :: 0 <= j < |written| ==>
      written[j] in upserted && upserted[written[j]].deviceId == id && upserted[written[j]].updated == time
    requires forall j :: 0 <= j < |written| && (forall l :: j < l < |written| ==> written[l] != written[j]) ==>
      upserted[written[j]].columns == Project(prepared[j], MetricColumns)
    requires forall j :: 0 <= j < |written| && IdOf(prepared[j]).Some? ==> written[j] == IdOf(prepared[j]).value
    requires forall k :: k in upserted <==> k in before || k in written
    requires forall k :: k in before && k !in written ==> upserted[k] == before[k]
    requires forall k :: k in after <==> k in upserted && !Stale(upserted[k], id, time)
    requires forall k :: k in after ==> after[k] == upserted[k]
    ensures SavedMetrics(before, after, written, parsed, isNew, id, time)
  {
    forall j | 0 <= j < |written| && !isNew && IdOf(parsed[j]).Some?
      ensures written[j] == IdOf(parsed[j]).value
    {
      assert "id" in prepared[j] && prepared[j]["id"] == parsed[j]["id"];
    }
  }

  /**
   * `device.save()` followed, after a commit, by `device.updateVarbindList()`
   * and `device.polling(2000)`: the device's metric list is read back from
   * the varbind rows (`ids` names them) and the device is re-armed. A device
   * that saved metrics is always left with a pending poll.
   */
  method SaveDevice(store: Store, sched: Scheduler, d: Device, parsed: Result<seq<Fields>, string>, time: int,
                    dbError: Option<Failure>, make: (int, StoredMetric) -> Varbind)
    returns (r: Result<int, string>, ids: seq<int>)
    requires store.Valid() && sched.Valid()
    modifies store, sched, d`attrs, d`varbinds, d`status, d`prevStatus
    ensures store.Valid() && sched.Valid()
    ensures r.Err? <==> parsed.Err? || dbError.Some?
    ensures r.Err? ==> store.devices == old(store.devices) && store.metrics == old(store.metrics) && unchanged(sched)
    ensures r.Err? ==> d.varbinds == old(d.varbinds) && ids == []
    ensures r.Ok? ==> store.devices == old(store.devices)[d.attrs.id := old(d.attrs).(id := d.attrs.id)]
    ensures r.Ok? ==> d.status == 0 && d.prevStatus == Some(0)
    ensures r.Ok? ==> |ids| == |d.varbinds| && forall i :: 0 <= i < |ids| ==>
      ids[i] in store.metrics && store.metrics[ids[i]].deviceId == d.attrs.id
      && d.varbinds[i] == make(ids[i], store.metrics[ids[i]])
    ensures r.Ok? ==> forall k :: k in store.metrics && store.metrics[k].deviceId == d.attrs.id ==> k in ids
    ensures r.Ok? && d.varbinds != [] ==> d.attrs.id in sched.timers && sched.queue[sched.timers[d.attrs.id]] == Timer(d.attrs.id, 2000)
    ensures r.Ok? && d.varbinds == [] ==> d.attrs.id !in sched.timers
    ensures r.Ok? && parsed.value != [] ==> d.attrs.id in sched.timers
  {
    var written;
    ids := [];
    r, written := store.Save(d, parsed, time, dbError);
    if r.Ok? {
      d.varbinds, ids := store.MetricsOf(d.attrs.id, make);
      if parsed.value != [] {
        assert written[0] in store.metrics && store.metrics[written[0]].deviceId == d.attrs.id;
      }
      sched.Rearm(d, 2000);
    }
  }

  /** `device.delete()`: after a commit the device has no metrics and no pending poll. */
  method DeleteDevice(store: Store, sched: Scheduler, d: Device, dbError: Option<string>) returns (r: Result<int, string>)
    requires store.Valid() && sched.Valid()
    modifies store, sched, d`varbinds
    ensures store.Valid() && sched.Valid()
    ensures r.Err? <==> dbError.Some?
    ensures r.Err? ==> store.devices == old(store.devices) && store.metrics == old(store.metrics)
    ensures r.Err? ==> d.varbinds == old(d.varbinds) && unchanged(sched)
    ensures r.Ok? ==> d.attrs.id !in store.devices && forall k :: k in store.metrics ==> store.metrics[k].deviceId != d.attrs.id
    ensures r.Ok? ==> d.varbinds == [] && d.attrs.id !in sched.timers
    ensures forall id :: id != d.attrs.id ==> (id in sched.timers <==> id in old(sched.timers))
  {
    r := store.Delete(d.attrs.id, dbError);
    if r.Ok? {
      d.varbinds := [];
      sched.Rearm(d, 0);
    }
  }
}
