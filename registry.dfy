/**
 * Registry queries over the in-memory devices and their metrics
 * (models/device.js:36-40, 50-56, 93-120): the address list, the tag
 * dictionary and the back-fill of check-owned metrics when the cache loads.
 */
module Registry {
  import opened Wrappers
  import opened Seqs
  import opened Js
  import opened Devices

  // ---------------------------------------------------------------- getIpList

  /** `d.ip` for the devices the query selects and '' for the others. */
  function Selected(devices: seq<DeviceInfo>, onlyPinged: bool): seq<string> {
    if devices == [] then []
    else
      var d := devices[|devices| - 1];
      Selected(devices[..|devices| - 1], onlyPinged) + [if !onlyPinged || d.isPinged then d.ip else ""]
  }

  /** `filter((ip) => !!ip)`. */
  function NonEmpty(s: seq<string>): (r: seq<string>)
    ensures forall i :: 0 <= i < |r| ==> r[i] != "" && r[i] in s
    ensures forall i :: 0 <= i < |s| && s[i] != "" ==> s[i] in r
  {
    if s == [] then []
    else
      var init := s[..|s| - 1];
      assert s == init + [s[|s| - 1]];
      NonEmpty(init) + (if s[|s| - 1] != "" then [s[|s| - 1]] else [])
  }

  /** The trimmed, non-empty addresses in device order, duplicates included. */
  function Addresses(devices: seq<DeviceInfo>, onlyPinged: bool): seq<string> {
    NonEmpty(TrimAll(Selected(devices, onlyPinged)))
  }

  /** `getIpList(is_pinged)`. */
  function IpList(devices: seq<DeviceInfo>, onlyPinged: bool): seq<string> {
    Dedup(Addresses(devices, onlyPinged))
  }

  /** Some selected device has `x` as its trimmed address. */
  ghost predicate Listed(devices: seq<DeviceInfo>, onlyPinged: bool, x: string) {
    exists i :: 0 <= i < |devices| && (!onlyPinged || devices[i].isPinged) && Trim(devices[i].ip) == x
  }

  lemma {:induction false} SelectedSpec(devices: seq<DeviceInfo>, onlyPinged: bool)
    ensures var s := Selected(devices, onlyPinged);
      && |s| == |devices|
      && forall i :: 0 <= i < |s| ==> s[i] == if !onlyPinged || devices[i].isPinged then devices[i].ip else ""
  {
    if devices != [] {
      SelectedSpec(devices[..|devices| - 1], onlyPinged);
    }
  }

  /** The address list holds each selected, trimmed, non-empty address and nothing else. */
  lemma IpListMembers(devices: seq<DeviceInfo>, onlyPinged: bool, x: string)
    ensures x in IpList(devices, onlyPinged) <==> x != "" && Listed(devices, onlyPinged, x)
  {
    var t := TrimAll(Selected(devices, onlyPinged));
    var a := Addresses(devices, onlyPinged);
    assert a == NonEmpty(t);
    assert IpList(devices, onlyPinged) == Dedup(a);
    DedupMember(a, x);
    if x != "" && Listed(devices, onlyPinged, x) {
      ListedIsSelected(devices, onlyPinged, x);
    }
    if x in a {
      SelectedIsListed(devices, onlyPinged, x);
    }
  }

  lemma ListedIsSelected(devices: seq<DeviceInfo>, onlyPinged: bool, x: string)
    requires Listed(devices, onlyPinged, x)
    ensures x in TrimAll(Selected(devices, onlyPinged))
  {
    SelectedSpec(devices, onlyPinged);
    var i :| 0 <= i < |devices| && (!onlyPinged || devices[i].isPinged) && Trim(devices[i].ip) == x;
    assert TrimAll(Selected(devices, onlyPinged))[i] == x;
  }

  lemma SelectedIsListed(devices: seq<DeviceInfo>, onlyPinged: bool, x: string)
    requires x != "" && x in TrimAll(Selected(devices, onlyPinged))
    ensures Listed(devices, onlyPinged, x)
  {
    var s := Selected(devices, onlyPinged);
    SelectedSpec(devices, onlyPinged);
    var t := TrimAll(s);
    var k :| 0 <= k < |t| && t[k] == x;
    assert t[k] == Trim(s[k]);
  }

  /** Every address on the list is trimmed. */
  lemma IpListTrimmed(devices: seq<DeviceInfo>, onlyPinged: bool)
    ensures forall x :: x in IpList(devices, onlyPinged) ==> IsTrimmed(x)
  {
    var s := Selected(devices, onlyPinged);
    var t := TrimAll(s);
    var a := Addresses(devices, onlyPinged);
    forall x | x in IpList(devices, onlyPinged) ensures IsTrimmed(x) {
      DedupMember(a, x);
      var k :| 0 <= k < |t| && t[k] == x;
      TrimIsTrimmed(s[k]);
    }
  }

  /** The list has no duplicates and keeps the order in which addresses first occur. */
  lemma IpListOrder(devices: seq<DeviceInfo>, onlyPinged: bool)
    ensures var a := Addresses(devices, onlyPinged);
      var r := IpList(devices, onlyPinged);
      && NoDups(r)
      && forall i, j :: 0 <= i < j < |r| ==> IndexOf(a, r[i]) < IndexOf(a, r[j])
  {
    var a := Addresses(devices, onlyPinged);
    DedupOrder(a);
    assert IpList(devices, onlyPinged) == Dedup(a);
  }

  // ------------------------------------------------------- check back-fill

  /** A database row: column name to value. */
  type Row = map<string, JsValue>

  /** `r[c]`, `undefined` for a missing column. */
  function Column(r: Row, c: string): JsValue {
    if c in r then r[c] else Undefined
  }

  /** `x != undefined`: neither `undefined` nor `null`. */
  predicate Defined(v: JsValue) {
    !v.Undefined? && !v.Null?
  }

  /** The object key a value is filed under: its text. */
  function Key(v: JsValue, env: Builtins): string {
    ToText(v, env)
  }

  /** The key a check row is filed under: the text of its `id`. */
  function RowKey(r: Row, env: Builtins): string {
    Key(Column(r, "id"), env)
  }

  /** `check_list.forEach((r) => checks[r.id] = r)`: a later row with the same id wins. */
  function CheckIndex(checks: seq<Row>, env: Builtins): map<string, Row> {
    if checks == [] then map[]
    else
      var r := checks[|checks| - 1];
      CheckIndex(checks[..|checks| - 1], env)[RowKey(r, env) := r]
  }

  /** Exactly the ids of the check rows are filed. */
  lemma {:induction false} CheckIndexKeys(checks: seq<Row>, env: Builtins)
    ensures forall k :: k in CheckIndex(checks, env) <==> exists i :: 0 <= i < |checks| && RowKey(checks[i], env) == k
  {
    if checks != [] {
      var init := checks[..|checks| - 1];
      CheckIndexKeys(init, env);
      forall k | k in CheckIndex(init, env) ensures exists i :: 0 <= i < |checks| && RowKey(checks[i], env) == k {
        var i :| 0 <= i < |init| && RowKey(init[i], env) == k;
        assert checks[i] == init[i];
      }
      forall i | 0 <= i < |init| ensures RowKey(checks[i], env) in CheckIndex(init, env) {
        assert checks[i] == init[i];
      }
    }
  }

  /** No later check row carries the same id as row `i`. */
  predicate LastWithId(checks: seq<Row>, i: int, env: Builtins)
    requires 0 <= i < |checks|
  {
    forall j :: i < j < |checks| ==> RowKey(checks[j], env) != RowKey(checks[i], env)
  }

  /** Each id is filed under the last check row that carries it. */
  lemma {:induction false} CheckIndexLastWins(checks: seq<Row>, env: Builtins, i: int)
    requires 0 <= i < |checks| && LastWithId(checks, i, env)
    ensures RowKey(checks[i], env) in CheckIndex(checks, env)
    ensures CheckIndex(checks, env)[RowKey(checks[i], env)] == checks[i]
  {
    if i < |checks| - 1 {
      var init := checks[..|checks| - 1];
      assert init[i] == checks[i];
      assert LastWithId(init, i, env) by {
        forall j | i < j < |init| ensures RowKey(init[j], env) != RowKey(init[i], env) {
          assert init[j] == checks[j];
        }
      }
      CheckIndexLastWins(init, env, i);
    }
  }

  /** `Object.keys(varbind_list[0])` without `id` and `updated`, or none for no rows. */
  function BackfillColumns(rows: seq<Row>): (columns: set<string>)
    ensures "id" !in columns && "updated" !in columns
  {
    if rows == [] then {} else rows[0].Keys - {"id", "updated"}
  }

  /** The check a metric row takes its settings from, when `!!r.check_id && checks[r.check_id]`. */
  function OwningCheck(r: Row, index: map<string, Row>, env: Builtins): Option<Row> {
    var id := Column(r, "check_id");
    if Truthy(id) && Key(id, env) in index then Some(index[Key(id, env)]) else None
  }

  /** One metric row after the back-fill. */
  function Backfilled(r: Row, index: map<string, Row>, columns: set<string>, env: Builtins): Row {
    match OwningCheck(r, index, env)
    case None => r
    case Some(check) =>
      var copied := set c | c in columns && c in check && Defined(check[c]);
      map c | c in r.Keys + copied :: if c in copied then check[c] else r[c]
  }

  /**
   * The back-fill copies exactly the listed columns the owning check defines,
   * keeps every other column, never touches `id` or `updated`, and leaves rows
   * without an owning check alone.
   */
  lemma BackfilledSpec(r: Row, index: map<string, Row>, columns: set<string>, env: Builtins, c: string)
    requires "id" !in columns && "updated" !in columns
    ensures var b := Backfilled(r, index, columns, env);
      && Column(b, "id") == Column(r, "id")
      && Column(b, "updated") == Column(r, "updated")
      && (OwningCheck(r, index, env).None? ==> b == r)
      && (OwningCheck(r, index, env).Some? ==>
            var check := OwningCheck(r, index, env).value;
            Column(b, c) == if c in columns && Defined(Column(check, c)) then Column(check, c) else Column(r, c))
  {
  }

  /**
   * `cacheAll`'s back-fill over the loaded metric rows, in place: every row
   * with an owning check receives that check's defined values for the columns
   * of the first row (minus `id` and `updated`).
   */
  method Backfill(rows: array<Row>, checkList: seq<Row>, env: Builtins)
    modifies rows
    ensures forall i :: 0 <= i < rows.Length ==>
      rows[i] == Backfilled(old(rows[i]), CheckIndex(checkList, env), BackfillColumns(old(rows[..])), env)
  {
    var index := IndexChecks(checkList, env);
    var columns := BackfillColumns(rows[..]);
    ghost var before := rows[..];
    for i := 0 to rows.Length
      invariant forall k :: 0 <= k < i ==> rows[k] == Backfilled(before[k], index, columns, env)
      invariant forall k :: i <= k < rows.Length ==> rows[k] == before[k]
    {
      rows[i] := Backfilled(rows[i], index, columns, env);
    }
  }

  /** `check_list.forEach((r) => checks[r.id] = r)` as the loop it is. */
  method IndexChecks(checkList: seq<Row>, env: Builtins) returns (index: map<string, Row>)
    ensures index == CheckIndex(checkList, env)
  {
    index := map[];
    for i := 0 to |checkList|
      invariant index == CheckIndex(checkList[..i], env)
    {
      assert checkList[..i + 1][..i] == checkList[..i];
      index := index[Key(Column(checkList[i], "id"), env) := checkList[i]];
    }
    assert checkList[..|checkList|] == checkList;
  }
}
