/**
 * `updateLatencies(data)` (models/device.js:58-91): the ping probe's rows
 * are matched to the pinged devices, which take liveness and latency from
 * them; devices without status-bearing metrics also take their status from
 * the ping; one row of latencies is prepared for the history store.
 *
 * Line 82 reads `device.force_status_to`, but no `device` is declared in
 * that function and the file is in strict mode, so a pinged device that is
 * down and has no status-bearing metric raises a `ReferenceError` there.
 * `Mode.AsWritten` models that; `Mode.Intended` uses the device's own
 * `force_status_to || 3`, which is evidently what was meant.
 */
module Latency {
  import opened Wrappers
  import opened Js
  import opened Devices
  import opened Normaliser

  /** A row from the ping probe: `ip`, `for`, `alive`, `latency`. */
  datatype ProbeRow = ProbeRow(ip: string, target: Option<string>, alive: bool, latency: Number)

  /** The events `updateLatencies` emits. */
  datatype Event = StatusUpdated(id: int) | StatusChanged(id: int)

  /** A column of the `history.latencies` row: `time` or `device<id>`. */
  datatype Column = TimeColumn | DeviceColumn(id: int)

  /** A value of that row: the time, `'null'` for a latency that is not a number, or the latency. */
  datatype Cell = TimeCell(time: int) | NullCell | LatencyCell(latency: Number)

  /** Nothing to do, the row to insert, or the error that escaped. */
  datatype Outcome = NoData | Inserted(columns: seq<Column>, values: seq<Cell>) | Thrown(message: string)

  const ReferenceErrorText := "ReferenceError: device is not defined"

  /** `data.forEach((row) => odata[row.ip] = row)`: the last row for an address wins. */
  function ByIp(data: seq<ProbeRow>): map<string, ProbeRow> {
    if data == [] then map[]
    else
      var row := data[|data| - 1];
      ByIp(data[..|data| - 1])[row.ip := row]
  }

  /** `odata[d.ip] || data[i] && data[i].for == d.ip && data[i]` for the `i`-th pinged device. */
  function ProbeFor(data: seq<ProbeRow>, ip: string, i: nat): Option<ProbeRow> {
    var index := ByIp(data);
    if ip in index then Some(index[ip])
    else if i < |data| && data[i].target == Some(ip) then Some(data[i])
    else None
  }

  /** Where the last row with address `ip` sits, -1 when there is none. */
  function LastWithIp(data: seq<ProbeRow>, ip: string): (k: int)
    ensures -1 <= k < |data|
    ensures k == -1 <==> forall m :: 0 <= m < |data| ==> data[m].ip != ip
    ensures k >= 0 ==> data[k].ip == ip && forall m :: k < m < |data| ==> data[m].ip != ip
  {
    if data == [] then -1
    else if data[|data| - 1].ip == ip then |data| - 1
    else LastWithIp(data[..|data| - 1], ip)
  }

  /** `odata` files each address under the last row that has it. */
  lemma {:induction false} ByIpSpec(data: seq<ProbeRow>, ip: string)
    ensures ip in ByIp(data) <==> LastWithIp(data, ip) >= 0
    ensures ip in ByIp(data) ==> ByIp(data)[ip] == data[LastWithIp(data, ip)]
  {
    if data != [] {
      ByIpSpec(data[..|data| - 1], ip);
    }
  }

  /**
   * A device finds a row exactly when some row has its address or the row at
   * its position names it in `for`; the last row with its address, when there
   * is one, takes precedence.
   */
  lemma ProbeForSpec(data: seq<ProbeRow>, ip: string, i: nat)
    ensures var r := ProbeFor(data, ip, i);
      && (r.Some? <==> (exists k :: 0 <= k < |data| && data[k].ip == ip) || (i < |data| && data[i].target == Some(ip)))
      && (LastWithIp(data, ip) >= 0 ==> r == Some(data[LastWithIp(data, ip)]))
      && (LastWithIp(data, ip) == -1 && r.Some? ==> r.value == data[i])
  {
    ByIpSpec(data, ip);
  }

  /** `isNaN(latency) ? 'null' : latency`. */
  function LatencyValue(n: Number): Cell {
    if n.NaN? then NullCell else LatencyCell(n)
  }

  /** `device.force_status_to || 3`, the status of a device that is down. */
  function DownStatus(forceStatusTo: int): int {
    if forceStatusTo != 0 then forceStatusTo else 3
  }

  /**
   * `d.status = res.alive ? 1 : (device.force_status_to || 3)`: as written the
   * down case reads an undeclared name and raises; as intended it takes the
   * device's forced status, or 3.
   */
  function PingStatus(alive: bool, forceStatusTo: int, mode: Mode): Result<int, string> {
    if alive then Ok(1)
    else if mode == AsWritten then Err(ReferenceErrorText)
    else Ok(DownStatus(forceStatusTo))
  }

  /** As written, any down device that takes its status from the ping raises. */
  lemma DownDeviceRaises(forceStatusTo: int)
    ensures PingStatus(false, forceStatusTo, AsWritten) == Err(ReferenceErrorText)
    ensures PingStatus(true, forceStatusTo, AsWritten) == Ok(1)
  {
  }

  /** As intended, the ping always yields a status: 1 when alive, otherwise the forced status or 3, never 0. */
  lemma IntendedPingStatus(alive: bool, forceStatusTo: int)
    ensures var r := PingStatus(alive, forceStatusTo, Intended);
      && r.Ok? && r.value != 0
      && (alive ==> r.value == 1)
      && (!alive && forceStatusTo != 0 ==> r.value == forceStatusTo)
      && (!alive && forceStatusTo == 0 ==> r.value == 3)
  {
  }

  /**
   * One pinged device taking its probe row: liveness and latency always; for
   * a device without status-bearing metrics the old status moves to
   * `prev_status` and the status becomes 1 when alive and the down status
   * otherwise, `status-updated` is emitted, and `status-changed` follows when
   * there was a previous status and the status moved. As written, the down
   * case raises before the status is assigned, after `prev_status` was.
   */
  method ApplyProbe(d: Device, res: ProbeRow, mode: Mode) returns (r: Result<seq<Event>, string>)
    modifies d`alive, d`latency, d`status, d`prevStatus
    ensures d.alive == res.alive && d.latency == res.latency
    ensures old(d.IsStatus()) ==> r == Ok([]) && d.status == old(d.status) && d.prevStatus == old(d.prevStatus)
    ensures !old(d.IsStatus()) ==> d.prevStatus == Some(old(d.status))
    ensures !old(d.IsStatus()) && res.alive ==> d.status == 1
    ensures !old(d.IsStatus()) && !res.alive && mode == Intended ==> d.status == DownStatus(d.attrs.forceStatusTo)
    ensures !old(d.IsStatus()) && !res.alive && mode == AsWritten <==> r.Err?
    ensures r.Err? ==> r.error == ReferenceErrorText && d.status == old(d.status)
    ensures !old(d.IsStatus()) && r.Ok? ==>
      var changed := if old(d.prevStatus).Some? && old(d.status) != d.status then [StatusChanged(d.attrs.id)] else [];
      r.value == [StatusUpdated(d.attrs.id)] + changed
  {
    d.alive := res.alive;
    d.latency := res.latency;
    if d.IsStatus() {
      return Ok([]);
    }
    var prevPrev := d.prevStatus;
    d.prevStatus := Some(d.status);
    var next := PingStatus(res.alive, d.attrs.forceStatusTo, mode);
    if next.Err? {
      return Err(next.error);
    }
    d.status := next.value;
    var events := [StatusUpdated(d.attrs.id)];
    if prevPrev.Some? && d.prevStatus != Some(d.status) {
      events := events + [StatusChanged(d.attrs.id)];
    }
    r := Ok(events);
  }

  /**
   * What the loop reads of a device: its id, address, whether it is pinged,
   * and whether it has status-bearing metrics.
   */
  datatype Entry = Entry(id: int, ip: string, isPinged: bool, isStatus: bool)

  /** How many of the first `k` devices are pinged. */
  function PingedCount(es: seq<Entry>, k: nat): nat
    requires k <= |es|
  {
    if k == 0 then 0 else PingedCount(es, k - 1) + if es[k - 1].isPinged then 1 else 0
  }

  /** The pinged devices among the first `k` that have a probe row, each with that row, in device order. */
  function Matched(es: seq<Entry>, k: nat, data: seq<ProbeRow>): seq<(int, ProbeRow)>
    requires k <= |es|
  {
    if k == 0 then []
    else
      var e := es[k - 1];
      var res := ProbeFor(data, e.ip, PingedCount(es, k - 1));
      if e.isPinged && res.Some? then Matched(es, k - 1, data) + [(e.id, res.value)] else Matched(es, k - 1, data)
  }

  /** `columns`: `time`, then `device<id>` for each matched device. */
  function Columns(ms: seq<(int, ProbeRow)>): (r: seq<Column>)
    ensures |r| == |ms| + 1
  {
    if ms == [] then [TimeColumn] else Columns(ms[..|ms| - 1]) + [DeviceColumn(ms[|ms| - 1].0)]
  }

  /** `values`: the time, then each matched device's latency. */
  function Cells(ms: seq<(int, ProbeRow)>, time: int): (r: seq<Cell>)
    ensures |r| == |ms| + 1
  {
    if ms == [] then [TimeCell(time)] else Cells(ms[..|ms| - 1], time) + [LatencyValue(ms[|ms| - 1].1.latency)]
  }

  lemma RowAppend(ms: seq<(int, ProbeRow)>, m: (int, ProbeRow), time: int)
    ensures Columns(ms + [m]) == Columns(ms) + [DeviceColumn(m.0)]
    ensures Cells(ms + [m], time) == Cells(ms, time) + [LatencyValue(m.1.latency)]
  {
    assert (ms + [m])[..|ms|] == ms;
  }

  /** The row has `time` first and then one column and one value per matched device, in device order. */
  lemma {:induction false} RowShape(ms: seq<(int, ProbeRow)>, time: int)
    ensures Columns(ms)[0] == TimeColumn && Cells(ms, time)[0] == TimeCell(time)
    ensures forall k :: 0 <= k < |ms| ==> Columns(ms)[k + 1] == DeviceColumn(ms[k].0)
    ensures forall k :: 0 <= k < |ms| ==> Cells(ms, time)[k + 1] == LatencyValue(ms[k].1.latency)
  {
    if ms != [] {
      RowShape(ms[..|ms| - 1], time);
    }
  }

  /** `is_status` of a metric list. */
  predicate AnyStatus(vs: seq<Varbind>) {
    exists i :: 0 <= i < |vs| && vs[i].isStatus
  }

  function EntryOf(d: Device): Entry
    reads d`attrs, d`varbinds
  {
    Entry(d.attrs.id, d.attrs.ip, d.attrs.isPinged, AnyStatus(d.varbinds))
  }

  /**
   * Whether, as written, the walk over the first `k` devices meets a matched
   * device that is down and takes its status from the ping.
   */
  function Raises(es: seq<Entry>, k: nat, data: seq<ProbeRow>): bool
    requires k <= |es|
  {
    if k == 0 then false
    else
      var e := es[k - 1];
      var res := ProbeFor(data, e.ip, PingedCount(es, k - 1));
      Raises(es, k - 1, data) || (e.isPinged && res.Some? && !res.value.alive && !e.isStatus)
  }

  /** One more device of the walk. */
  lemma WalkStep(es: seq<Entry>, k: nat, data: seq<ProbeRow>)
    requires k < |es|
    ensures var e, i := es[k], PingedCount(es, k);
      var res := ProbeFor(data, e.ip, i);
      && PingedCount(es, k + 1) == i + (if e.isPinged then 1 else 0)
      && Matched(es, k + 1, data)
         == (if e.isPinged && res.Some? then Matched(es, k, data) + [(e.id, res.value)] else Matched(es, k, data))
      && Raises(es, k + 1, data) == (Raises(es, k, data) || (e.isPinged && res.Some? && !res.value.alive && !e.isStatus))
  {
  }

  /** Once the walk has met such a device, a longer walk has met it too. */
  lemma {:induction false} RaisesLater(es: seq<Entry>, k: nat, n: nat, data: seq<ProbeRow>)
    requires k <= n <= |es| && Raises(es, k, data)
    ensures Raises(es, n, data)
    decreases n - k
  {
    if k < n {
      RaisesLater(es, k + 1, n, data);
    }
  }

  /**
   * The loop body for one device: a pinged device looks up its probe row,
   * and a matched one takes it; `raised` tells whether that raised.
   */
  method Visit(d: Device, data: seq<ProbeRow>, i: nat, mode: Mode, ghost e: Entry)
    returns (res: Option<ProbeRow>, raised: bool)
    requires e == EntryOf(d)
    modifies d`alive, d`latency, d`status, d`prevStatus
    ensures res == if e.isPinged then ProbeFor(data, e.ip, i) else None
    ensures raised <==> mode == AsWritten && res.Some? && !res.value.alive && !e.isStatus
  {
    res, raised := None, false;
    if d.attrs.isPinged {
      res := ProbeFor(data, d.attrs.ip, i);
      if res.Some? {
        var r := ApplyProbe(d, res.value, mode);
        raised := r.Err?;
      }
    }
  }

  /**
   * `updateLatencies(data, callback)`: nothing for no rows; otherwise the
   * pinged devices are walked in order, the `i`-th of them matched by its
   * address or by the `i`-th row's `for`; each match adds `device<id>` and
   * its latency to the row and updates the device. As written the walk stops
   * at the first down device without status-bearing metrics, with the error
   * and without a row; as intended it never fails.
   */
  method UpdateLatencies(devices: seq<Device>, data: seq<ProbeRow>, time: int, mode: Mode, ghost es: seq<Entry>)
    returns (outcome: Outcome)
    requires |es| == |devices| && forall k :: 0 <= k < |devices| ==> es[k] == EntryOf(devices[k])
    modifies set d | d in devices
    ensures data == [] ==> outcome == NoData
    ensures outcome.Inserted? ==>
      && outcome.columns == Columns(Matched(es, |es|, data))
      && outcome.values == Cells(Matched(es, |es|, data), time)
    ensures mode == Intended && data != [] ==> outcome.Inserted?
    ensures mode == AsWritten && data != [] ==>
      (outcome.Thrown? <==> Raises(es, |es|, data)) && (outcome.Inserted? <==> !Raises(es, |es|, data))
    ensures outcome.Thrown? ==> outcome.message == ReferenceErrorText && mode == AsWritten
  {
    if data == [] {
      return NoData;
    }
    var columns := [TimeColumn];
    var values := [TimeCell(time)];
    var i := 0;
    for k := 0 to |devices|
      invariant i == PingedCount(es, k)
      invariant columns == Columns(Matched(es, k, data))
      invariant values == Cells(Matched(es, k, data), time)
      invariant forall j :: k <= j < |devices| ==>
        devices[j].attrs == old(devices[j].attrs) && devices[j].varbinds == old(devices[j].varbinds)
      invariant mode == AsWritten ==> !Raises(es, k, data)
    {
      var d := devices[k];
      assert es[k] == EntryOf(d);
      var id, pinged := d.attrs.id, d.attrs.isPinged;
      WalkStep(es, k, data);
      var res, raised := Visit(d, data, i, mode, es[k]);
      if res.Some? {
        RowAppend(Matched(es, k, data), (id, res.value), time);
        columns, values := columns + [DeviceColumn(id)], values + [LatencyValue(res.value.latency)];
      }
      if raised {
        RaisesLater(es, k + 1, |es|, data);
        return Thrown(ReferenceErrorText);
      }
      i := i + if pinged then 1 else 0;
    }
    outcome := Inserted(columns, values);
  }
}
