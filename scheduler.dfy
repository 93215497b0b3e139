/**
 * The per-device polling schedule (models/device.js:13, 285-297, 408): the
 * `timers` table keyed by device id, next to the runtime's queue of pending
 * timeouts. Timer handles and delays are abstract; a pass runs synchronously
 * when its timer fires.
 */
module Scheduling {
  import opened Wrappers
  import opened Js
  import opened Devices
  import opened Poll

  /** A pending `setTimeout(() => device.polling(), delay)`. */
  datatype Timer = Timer(device: int, delay: int)

  class Scheduler {
    /** `timers`: the handle of each device's pending timer. */
    var timers: map<int, nat>
    /** The runtime's pending timeouts, by handle. */
    var queue: map<nat, Timer>
    /** The next handle `setTimeout` gives out. */
    var nextHandle: nat

    /**
     * The table and the queue describe the same timers: every pending timeout
     * is the one its device's entry names, and every entry names a pending
     * timeout of that device.
     */
    ghost predicate Valid()
      reads this
    {
      && (forall h :: h in queue ==> h < nextHandle && queue[h].device in timers && timers[queue[h].device] == h)
      && (forall id :: id in timers ==> timers[id] in queue && queue[timers[id]].device == id)
    }

    /** The pending timeouts that will poll device `id`. */
    ghost function PendingFor(id: int): set<nat>
      reads this
    {
      set h | h in queue && queue[h].device == id
    }

    constructor ()
      ensures Valid() && timers == map[] && queue == map[]
    {
      timers, queue, nextHandle := map[], map[], 0;
    }

    /** A device never has more than one pending timeout, and has one exactly when it has an entry. */
    lemma AtMostOne(id: int)
      requires Valid()
      ensures id in timers ==> PendingFor(id) == {timers[id]}
      ensures id !in timers ==> PendingFor(id) == {}
    {
    }

    /** `clearTimeout(timers[id]); delete timers[id]`, when there is an entry. */
    method Cancel(id: int)
      requires Valid()
      modifies this
      ensures Valid() && id !in timers && nextHandle == old(nextHandle)
      ensures timers == old(timers) - {id}
      ensures queue == if id in old(timers) then old(queue) - {old(timers)[id]} else old(queue)
    {
      if id in timers {
        queue := queue - {timers[id]};
        timers := timers - {id};
      }
    }

    /** `timers[id] = setTimeout(…, delay)` for a device without an entry. */
    method Arm(id: int, delay: int)
      requires Valid() && id !in timers
      modifies this
      ensures Valid()
      ensures id in timers && queue[timers[id]] == Timer(id, delay)
      ensures timers == old(timers)[id := old(nextHandle)] && queue == old(queue)[old(nextHandle) := Timer(id, delay)]
    {
      var h := nextHandle;
      queue := queue[h := Timer(id, delay)];
      timers := timers[id := h];
      nextHandle := nextHandle + 1;
    }

    /**
     * `device.polling(delay)` when it does not start a pass: with a delay, or
     * for a device without metrics, which is left without a timer.
     */
    method Rearm(d: Device, delay: int)
      requires Valid() && (delay != 0 || d.varbinds == [])
      modifies this
      ensures Valid()
      ensures forall id :: id != d.attrs.id ==> (id in timers <==> id in old(timers))
      ensures forall id :: id != d.attrs.id && id in timers ==> timers[id] == old(timers)[id]
      ensures d.attrs.id in old(timers) ==> old(timers)[d.attrs.id] !in queue
      ensures d.varbinds == [] ==> d.attrs.id !in timers
      ensures d.varbinds != [] ==> d.attrs.id in timers && queue[timers[d.attrs.id]] == Timer(d.attrs.id, delay)
    {
      Cancel(d.attrs.id);
      if d.varbinds != [] {
        Arm(d.attrs.id, delay);
      }
    }

    /**
     * `device.polling(delay)`: the device's pending timeout is cancelled; a
     * device without metrics is left without one; a delay arms a new one;
     * without a delay the pass runs now and re-arms with the device's period.
     * Other devices' entries are untouched.
     */
    method Polling(d: Device, delay: int, plugins: seq<string>, respond: Collector, pe: PassEnv)
      returns (out: Option<PassOutcome>)
      requires Valid()
      modifies this, d`attrs, d`varbinds, d`status, d`prevStatus, d`alive
      ensures Valid()
      ensures d.attrs.id == old(d.attrs.id) && |d.varbinds| == |old(d.varbinds)|
      ensures forall id :: id != d.attrs.id ==> (id in timers <==> id in old(timers))
      ensures forall id :: id != d.attrs.id && id in timers ==> timers[id] == old(timers)[id]
      ensures d.attrs.id in old(timers) ==> old(timers)[d.attrs.id] !in queue
      ensures old(d.varbinds) == [] ==> d.attrs.id !in timers && out.None? && unchanged(d)
      ensures old(d.varbinds) != [] && delay != 0 ==>
        d.attrs.id in timers && queue[timers[d.attrs.id]] == Timer(d.attrs.id, delay) && out.None? && unchanged(d)
      ensures old(d.varbinds) != [] && delay == 0 ==>
        out.Some? && d.attrs.id in timers && queue[timers[d.attrs.id]] == Timer(d.attrs.id, NextDelay(d.attrs.period))
        && Passed(old(d.attrs), old(d.varbinds), old(d.status), d, out.value, plugins, respond, pe)
    {
      if d.varbinds == [] || delay != 0 {
        Rearm(d, delay);
        return None;
      }
      Cancel(d.attrs.id);
      var o := PollPass(d, plugins, respond, pe);
      Arm(d.attrs.id, o.nextDelay);
      out := Some(o);
    }

    /** A pending timeout fires: it leaves the queue and its device polls without a delay. */
    method Fire(h: nat, d: Device, plugins: seq<string>, respond: Collector, pe: PassEnv)
      returns (out: Option<PassOutcome>)
      requires Valid() && h in queue && queue[h].device == d.attrs.id
      modifies this, d`attrs, d`varbinds, d`status, d`prevStatus, d`alive
      ensures Valid() && h !in queue
      ensures forall id :: id != d.attrs.id ==> (id in timers <==> id in old(timers))
      ensures forall id :: id != d.attrs.id && id in timers ==> timers[id] == old(timers)[id]
      ensures old(d.varbinds) == [] ==> d.attrs.id !in timers && out.None? && unchanged(d)
      ensures old(d.varbinds) != [] ==>
        out.Some? && d.attrs.id in timers && queue[timers[d.attrs.id]] == Timer(d.attrs.id, NextDelay(d.attrs.period))
        && Passed(old(d.attrs), old(d.varbinds), old(d.status), d, out.value, plugins, respond, pe)
    {
      out := Polling(d, 0, plugins, respond, pe);
    }
  }
}
