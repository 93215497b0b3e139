/**
 * `updateParent` (models/device.js:255-283): choosing a device's parent from
 * the route to it. The route probe (`nmap.route`) is not part of this model;
 * its hop list is an input, as is the outcome of the database write.
 */
module Topology {
  import opened Wrappers
  import opened Seqs
  import opened Devices

  /** `ips.indexOf(d.ip)`: a device's position on the route, -1 when it is not on it. */
  function Hop(hops: seq<string>, d: DeviceInfo): int {
    IndexOf(hops, d.ip)
  }

  /** A later candidate may replace the current choice: it is pinged and is not the device itself. */
  predicate Eligible(hops: seq<string>, d: DeviceInfo, ip: string) {
    Hop(hops, d) != -1 && d.ip != ip && d.isPinged
  }

  /** `res = {hop, parent: d}`, the parent named by its position in the device list. */
  datatype Choice = Choice(hop: int, parent: int)

  /**
   * The devices that can end up chosen: the first device on the route, taken
   * whatever it is, and every eligible device.
   */
  predicate Candidate(ds: seq<DeviceInfo>, hops: seq<string>, ip: string, j: int) {
    && 0 <= j < |ds|
    && Hop(hops, ds[j]) != -1
    && (Eligible(hops, ds[j], ip) || forall k :: 0 <= k < j ==> Hop(hops, ds[k]) == -1)
  }

  /** The candidate furthest along the route, the earliest one among equals. */
  predicate Best(ds: seq<DeviceInfo>, hops: seq<string>, ip: string, j: int) {
    && Candidate(ds, hops, ip, j)
    && forall k :: 0 <= k < |ds| && Candidate(ds, hops, ip, k) ==>
         Hop(hops, ds[k]) <= Hop(hops, ds[j]) && (Hop(hops, ds[k]) == Hop(hops, ds[j]) ==> j <= k)
  }

  /**
   * The `forEach` over the device list: the first device on the route is
   * taken whatever it is; a later one replaces the choice only when it sits
   * strictly further along the route and is eligible. The outcome is none
   * exactly when no device is on the route; otherwise it is the best
   * candidate, with its position on the route.
   */
  method ChooseParent(ds: seq<DeviceInfo>, hops: seq<string>, ip: string) returns (res: Option<Choice>)
    ensures res.None? <==> forall j :: 0 <= j < |ds| ==> Hop(hops, ds[j]) == -1
    ensures res.Some? ==> Best(ds, hops, ip, res.value.parent) && res.value.hop == Hop(hops, ds[res.value.parent])
  {
    res := None;
    for i := 0 to |ds|
      invariant res.None? <==> forall j :: 0 <= j < i ==> Hop(hops, ds[j]) == -1
      invariant res.Some? ==> Candidate(ds, hops, ip, res.value.parent) && res.value.parent < i
      invariant res.Some? ==> res.value.hop == Hop(hops, ds[res.value.parent])
      invariant res.Some? ==> forall k :: Candidate(ds, hops, ip, k) && k < i ==>
        Hop(hops, ds[k]) <= res.value.hop && (Hop(hops, ds[k]) == res.value.hop ==> res.value.parent <= k)
    {
      var d := ds[i];
      var hop := IndexOf(hops, d.ip);
      if hop != -1 && (res.None? || (res.value.hop < hop && ip != d.ip && d.isPinged)) {
        res := Some(Choice(hop, i));
      }
    }
  }

  /** The best candidate is unique, so the contract above fixes the choice. */
  lemma BestUnique(ds: seq<DeviceInfo>, hops: seq<string>, ip: string, p: int, q: int)
    requires Best(ds, hops, ip, p) && Best(ds, hops, ip, q)
    ensures p == q
  {
  }

  /**
   * `device.updateParent(callback)`: a device without an address loses its
   * parent at once; otherwise the parent chosen from the route is written,
   * and the device's `parent_id` changes only when the write succeeds.
   */
  method UpdateParent(d: Device, ds: seq<DeviceInfo>, hops: seq<string>, writeError: Option<string>)
    returns (r: Result<Option<int>, string>)
    modifies d`attrs
    ensures old(d.attrs.ip) == "" ==> r == Ok(None) && d.attrs == old(d.attrs).(parentId := None)
    ensures old(d.attrs.ip) != "" && writeError.Some? ==> r == Err(writeError.value) && d.attrs == old(d.attrs)
    ensures old(d.attrs.ip) != "" && writeError.None? ==> r.Ok? && d.attrs == old(d.attrs).(parentId := r.value)
    ensures old(d.attrs.ip) != "" && writeError.None? ==>
      (r.value.None? <==> forall j :: 0 <= j < |ds| ==> Hop(hops, ds[j]) == -1)
    ensures old(d.attrs.ip) != "" && r.Ok? && r.value.Some? ==>
      exists j :: Best(ds, hops, old(d.attrs.ip), j) && ds[j].id == r.value.value
  {
    if d.attrs.ip == "" {
      d.attrs := d.attrs.(parentId := None);
      return Ok(None);
    }
    var res := ChooseParent(ds, hops, d.attrs.ip);
    var parentId := if res.Some? then Some(ds[res.value.parent].id) else None;
    if writeError.Some? {
      return Err(writeError.value);
    }
    d.attrs := d.attrs.(parentId := parentId);
    r := Ok(parentId);
  }
}
