/**
 * The device entity of models/device.js: its attributes, the metrics it owns
 * (varbinds, kept here as values in the device's list), attribute ingestion
 * (`setAttributes`) and metric-driven status (`is_status`, `updateStatus`).
 */
module Devices {
  import opened Wrappers
  import opened Seqs
  import opened Js

  /** One protocol's settings object from `json_protocols`. */
  type Protocol = map<string, JsValue>

  /** A metric as the device model sees it (the varbind collaborator owns the rest). */
  datatype Varbind = Varbind(
    id: int,
    deviceId: int,
    name: string,
    protocol: string,
    address: string,
    divider: Divider,
    valueType: string,
    value: JsValue,
    prevValue: JsValue,
    valueTime: Option<int>,
    prevValueTime: Option<int>,
    status: int,
    prevStatus: int,
    isTemporary: bool,
    isExpression: bool,
    isStatus: bool,
    tagList: seq<string>)

  /**
   * A `devices` row or an edited device as handed to `setAttributes`. Numbers
   * the source reads with `parseInt` arrive parsed (`None` for NaN); the
   * protocol JSON arrives with the outcome of `JSON.parse` (`None` when it throws).
   */
  datatype DeviceRow = DeviceRow(
    id: int,
    name: string,
    ip: string,
    mac: string,
    description: string,
    timeout: Option<int>,
    jsonProtocols: string,
    protocols: Option<map<string, Protocol>>,
    jsonVarbindList: string,
    isPinged: Option<int>,
    period: int,
    forceStatusTo: int,
    parentId: Option<int>,
    template: bool,
    tags: string)

  /** The row a fresh device starts from: every attribute empty. */
  const EmptyRow := DeviceRow(0, "", "", "", "", None, "{}", Some(map[]), "[]", None, 0, 0, None, false, "")

  /** What the registry queries read of a device. */
  datatype DeviceInfo = DeviceInfo(
    id: int,
    ip: string,
    isPinged: bool,
    tagList: seq<string>,
    varbinds: seq<Varbind>)

  /** `parseInt(timeout) || 3`. */
  function TimeoutOf(raw: Option<int>): int {
    if raw.Some? && raw.value != 0 then raw.value else 3
  }

  /** `parseInt(x)` used as a boolean. */
  predicate Flag(raw: Option<int>) {
    raw.Some? && raw.value != 0
  }

  /** `name.trim()` applied to every piece of the `;`-split tag string. */
  function TrimAll(parts: seq<string>): (r: seq<string>)
    ensures |r| == |parts|
    ensures forall i :: 0 <= i < |r| ==> r[i] == Trim(parts[i])
  {
    if parts == [] then [] else [Trim(parts[0])] + TrimAll(parts[1..])
  }

  /** `tag_list`: the trimmed, duplicate-free pieces of `tags` split on `;`, or none for ''. */
  function TagListOf(tags: string): seq<string> {
    if tags == "" then [] else Dedup(TrimAll(Split(tags, ';')))
  }

  /**
   * A tag list holds no duplicates, and every piece of the tag string appears
   * trimmed and without a separator.
   */
  lemma TagListSpec(tags: string)
    ensures NoDups(TagListOf(tags))
    ensures forall t :: t in TagListOf(tags) ==> IsTrimmed(t) && ';' !in t
    ensures tags != "" ==> forall p :: p in Split(tags, ';') ==> Trim(p) in TagListOf(tags)
  {
    if tags != "" {
      var parts := Split(tags, ';');
      var trimmed := TrimAll(parts);
      forall t | t in TagListOf(tags) ensures IsTrimmed(t) && ';' !in t {
        var i :| 0 <= i < |trimmed| && trimmed[i] == t;
        TrimIsTrimmed(parts[i]);
        TrimSpec(parts[i]);
        assert parts[i] in parts;
        TrimSubstring(parts[i], ';');
      }
      forall p | p in parts ensures Trim(p) in TagListOf(tags) {
        var i :| 0 <= i < |parts| && parts[i] == p;
        assert trimmed[i] == Trim(p);
      }
    }
  }

  /** A character missing from a string is missing from its trim. */
  lemma TrimSubstring(s: string, c: char)
    requires c !in s
    ensures c !in Trim(s)
  {
    TrimSpec(s);
    var i := |s| - |TrimStart(s)|;
    var r := Trim(s);
    assert forall k :: 0 <= k < |r| ==> r[k] == s[i + k];
  }

  /**
   * Re-normalising the joined tag list gives the same list back, except for
   * the list [''] (a tag string of blanks), which joins to '' and comes back
   * empty; the joined string itself is always a fixpoint.
   */
  lemma {:induction false} TagsRoundTrip(tags: string)
    ensures var tl := TagListOf(tags);
      && (tl != [""] ==> TagListOf(Join(tl, ';')) == tl)
      && Join(TagListOf(Join(tl, ';')), ';') == Join(tl, ';')
  {
    var tl := TagListOf(tags);
    TagListSpec(tags);
    JoinEmpty(tl, ';');
    if tl != [] && tl != [""] {
      NormalisedListIsFixpoint(tl);
    }
  }

  /** A duplicate-free list of trimmed, separator-free tags normalises back to itself. */
  lemma NormalisedListIsFixpoint(tl: seq<string>)
    requires tl != [] && tl != [""]
    requires NoDups(tl)
    requires forall t :: t in tl ==> IsTrimmed(t) && ';' !in t
    ensures TagListOf(Join(tl, ';')) == tl
  {
    JoinEmpty(tl, ';');
    SplitJoin(tl, ';');
    var trimmed := TrimAll(tl);
    forall i | 0 <= i < |tl| ensures trimmed[i] == tl[i] {
      assert tl[i] in tl;
      TrimTrimmed(tl[i]);
    }
    assert trimmed == tl;
    DedupOfNoDups(tl);
  }

  /** `reduce((max, e) => Math.max(max, e.status || 0), 0)`. */
  function MaxStatus(vs: seq<Varbind>): int {
    if vs == [] then 0
    else
      var rest := MaxStatus(vs[..|vs| - 1]);
      var s := vs[|vs| - 1].status;
      if s > rest then s else rest
  }

  /** The aggregate is at least 0, at least every metric's status, and is 0 or one of them. */
  lemma {:induction false} MaxStatusSpec(vs: seq<Varbind>)
    ensures MaxStatus(vs) >= 0
    ensures forall i :: 0 <= i < |vs| ==> vs[i].status <= MaxStatus(vs)
    ensures MaxStatus(vs) == 0 || exists i :: 0 <= i < |vs| && vs[i].status == MaxStatus(vs)
  {
    if vs != [] {
      var init := vs[..|vs| - 1];
      MaxStatusSpec(init);
      forall i | 0 <= i < |vs| - 1 ensures vs[i].status <= MaxStatus(vs) {
        assert vs[i] == init[i];
      }
      if MaxStatus(vs) != 0 && MaxStatus(vs) != vs[|vs| - 1].status {
        var i :| 0 <= i < |init| && init[i].status == MaxStatus(init);
        assert vs[i] == init[i];
      }
    }
  }

  /** `settings.timeout = timeout`, the stamp every protocol receives. */
  function Stamped(p: Protocol, timeout: int): Protocol {
    p["timeout" := Num(Finite(timeout as real))]
  }

  /** The attributes `setAttributes` writes. */
  datatype Attributes = Attributes(
    id: int,
    name: string,
    ip: string,
    mac: string,
    description: string,
    timeout: int,
    jsonProtocols: string,
    protocols: map<string, Protocol>,
    jsonVarbindList: string,
    isPinged: bool,
    period: int,
    forceStatusTo: int,
    parentId: Option<int>,
    template: bool,
    tags: string,
    tagList: seq<string>)

  /** The protocols without the `expression` pseudo-protocol, each stamped with the timeout. */
  function StampedProtocols(parsed: map<string, Protocol>, timeout: int): map<string, Protocol> {
    map name | name in parsed && name != "expression" :: Stamped(parsed[name], timeout)
  }

  /** What `setAttributes(row)` leaves on a device whose `template` flag was `template`. */
  function Ingest(row: DeviceRow, template: bool): Attributes {
    var timeout := TimeoutOf(row.timeout);
    var tagList := TagListOf(row.tags);
    Attributes(
      row.id, Trim(row.name), Trim(row.ip), Trim(row.mac), Trim(row.description),
      timeout,
      if row.protocols.Some? then row.jsonProtocols else "{}",
      if row.protocols.Some? then StampedProtocols(row.protocols.value, timeout) else map[],
      if row.jsonVarbindList == "" then "[]" else row.jsonVarbindList,
      Flag(row.isPinged), row.period, row.forceStatusTo, row.parentId,
      template || row.template,
      Join(tagList, ';'), tagList)
  }

  /**
   * Ingestion keeps a set template flag, leaves a positive-or-negative timeout
   * (never 0), drops the `expression` protocol and stamps every other one,
   * degrades an unparsable protocol list to `{}`, and stores tags in a form
   * that ingesting again reproduces.
   */
  lemma IngestSpec(row: DeviceRow, template: bool)
    ensures var a := Ingest(row, template);
      && (template ==> a.template)
      && a.timeout != 0
      && (row.timeout.Some? && row.timeout.value != 0 ==> a.timeout == row.timeout.value)
      && "expression" !in a.protocols
      && (row.protocols.Some? ==> a.protocols.Keys == row.protocols.value.Keys - {"expression"})
      && (forall name :: name in a.protocols ==> a.protocols[name]["timeout"] == Num(Finite(a.timeout as real)))
      && (row.protocols.None? ==> a.jsonProtocols == "{}" && a.protocols == map[])
      && a.jsonVarbindList != ""
      && IsTrimmed(a.name) && IsTrimmed(a.ip)
      && Join(TagListOf(a.tags), ';') == a.tags
  {
    TrimIsTrimmed(row.name);
    TrimIsTrimmed(row.ip);
    TagsRoundTrip(row.tags);
  }

  /**
   * The row a device's own attributes make, with its protocol JSON read back
   * as the protocols the device holds.
   */
  function RowOf(a: Attributes): DeviceRow {
    DeviceRow(a.id, a.name, a.ip, a.mac, a.description, Some(a.timeout), a.jsonProtocols, Some(a.protocols),
              a.jsonVarbindList, Some(if a.isPinged then 1 else 0), a.period, a.forceStatusTo, a.parentId,
              a.template, a.tags)
  }

  /**
   * Ingesting a device's own attributes again changes nothing: the texts are
   * already trimmed, the timeout is already non-zero, the protocols are
   * already stamped and the tag string is already normal. The one exception
   * is the tag list [''], which comes back empty.
   */
  lemma IngestFixpoint(row: DeviceRow, template: bool)
    ensures var a := Ingest(row, template);
      var b := Ingest(RowOf(a), a.template);
      && (a.tagList != [""] ==> b == a)
      && (a.tagList == [""] ==> b == a.(tagList := []))
  {
    var a := Ingest(row, template);
    IngestSpec(row, template);
    TrimIsTrimmed(row.mac);
    TrimIsTrimmed(row.description);
    TrimTrimmed(a.name);
    TrimTrimmed(a.ip);
    TrimTrimmed(a.mac);
    TrimTrimmed(a.description);
    TagsRoundTrip(row.tags);
    StampedAgain(row.protocols, a.timeout);
    var b := Ingest(RowOf(a), a.template);
    assert b.protocols == a.protocols && b.jsonProtocols == a.jsonProtocols;
    assert b.timeout == a.timeout && b.isPinged == a.isPinged && b.template == a.template;
    assert b.tags == a.tags;
  }

  /** Stamping protocols that are already stamped with the same timeout changes nothing. */
  lemma StampedAgain(protocols: Option<map<string, Protocol>>, timeout: int)
    ensures var ps := if protocols.Some? then StampedProtocols(protocols.value, timeout) else map[];
      StampedProtocols(ps, timeout) == ps
  {
    var ps := if protocols.Some? then StampedProtocols(protocols.value, timeout) else map[];
    forall name | name in ps ensures Stamped(ps[name], timeout) == ps[name] {
    }
  }

  /**
   * `delete protocols.expression` and then `for (protocol in protocols)
   * protocols[protocol].timeout = timeout`.
   */
  method StampTimeouts(parsed: map<string, Protocol>, timeout: int) returns (r: map<string, Protocol>)
    ensures r.Keys == parsed.Keys - {"expression"}
    ensures forall name :: name in r ==> r[name] == Stamped(parsed[name], timeout)
  {
    r := parsed - {"expression"};
    var todo := r.Keys;
    while todo != {}
      invariant todo <= r.Keys
      invariant r.Keys == parsed.Keys - {"expression"}
      invariant forall name :: name in r && name !in todo ==> r[name] == Stamped(parsed[name], timeout)
      invariant forall name :: name in todo ==> r[name] == parsed[name]
      decreases todo
    {
      var name :| name in todo;
      r := r[name := Stamped(r[name], timeout)];
      todo := todo - {name};
    }
  }

  /**
   * A device object. The attributes `setAttributes` writes are held together
   * in `attrs`; the metric list and the run-time state (status, liveness,
   * latency) are fields of their own.
   */
  class Device {
    var attrs: Attributes
    var varbinds: seq<Varbind>
    var status: int
    var prevStatus: Option<int>
    var alive: bool
    var latency: Number

    /** `new Device()`: no attributes, no metrics, status 0, no previous status. */
    constructor ()
      ensures attrs == Ingest(EmptyRow, false)
      ensures varbinds == [] && status == 0 && prevStatus == None && !alive
    {
      attrs := Ingest(EmptyRow, false);
      varbinds, status, prevStatus, alive, latency := [], 0, None, false, NaN;
    }

    /** `is_status`: some owned metric is status-bearing. */
    predicate IsStatus()
      reads this`varbinds
    {
      exists i :: 0 <= i < |varbinds| && varbinds[i].isStatus
    }

    function Info(): DeviceInfo
      reads this
    {
      DeviceInfo(attrs.id, attrs.ip, attrs.isPinged, attrs.tagList, varbinds)
    }

    /**
     * `setAttributes(data)`: copy the row, keep a set `template` flag, trim the
     * identity strings, default the timeout, strip and stamp the protocols
     * (degrading to none on a parse failure) and normalise the tags; metrics,
     * status and liveness are untouched.
     */
    method SetAttributes(row: DeviceRow)
      modifies this`attrs
      ensures attrs == Ingest(row, old(attrs.template))
    {
      var a := Ingest(row, attrs.template);
      if row.protocols.Some? {
        var ps := StampTimeouts(row.protocols.value, a.timeout);
        assert ps == a.protocols;
        a := a.(protocols := ps);
      }
      attrs := a;
    }

    /**
     * `updateStatus()`: remember the old status; when a metric is
     * status-bearing take the largest metric status (at least 0), otherwise
     * keep the status.
     */
    method UpdateStatus()
      modifies this`status, this`prevStatus
      ensures prevStatus == Some(old(status))
      ensures status == if IsStatus() then MaxStatus(varbinds) else old(status)
    {
      prevStatus := Some(status);
      if IsStatus() {
        status := MaxStatus(varbinds);
      }
    }
  }
}
