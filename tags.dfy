/**
 * `getTagList()` (models/device.js:93-120): the dictionary from device tag to
 * the tags of the metrics those devices own, with the catch-all key `All`.
 *
 * The source builds it in five passes over a local object; each pass is a
 * method here, and each is proved against the sets the passes gather. A
 * dictionary is a map from key to list; JavaScript's `for … in` key order
 * is not modelled, so the passes that walk the keys take them in any order.
 */
module Tags {
  import opened Seqs
  import opened Devices

  /** The `tags` object: device tag to a list of metric tags. */
  type Directory = map<string, seq<string>>

  /** `v.value_type == 'number' && !v.is_temporary`: the metrics that contribute tags. */
  predicate Counted(v: Varbind) {
    v.valueType == "number" && !v.isTemporary
  }

  /** `(tag) => tag[0] != '$'`: the device tags that receive metric tags (the empty tag does). */
  predicate Feeds(t: string) {
    t == "" || t[0] != '$'
  }

  /** The tags of the counted metrics, in order, repeats included. */
  function MetricTags(vs: seq<Varbind>): seq<string> {
    if vs == [] then []
    else
      var v := vs[|vs| - 1];
      MetricTags(vs[..|vs| - 1]) + (if Counted(v) then v.tagList else [])
  }

  /** A metric tag is contributed exactly when some counted metric carries it. */
  lemma {:induction false} MetricTagsSpec(vs: seq<Varbind>, x: string)
    ensures x in MetricTags(vs) <==> exists i :: 0 <= i < |vs| && Counted(vs[i]) && x in vs[i].tagList
  {
    if vs != [] {
      var init := vs[..|vs| - 1];
      MetricTagsSpec(init, x);
      if x in MetricTags(init) {
        var i :| 0 <= i < |init| && Counted(init[i]) && x in init[i].tagList;
        assert vs[i] == init[i];
      }
      if exists i :: 0 <= i < |vs| && Counted(vs[i]) && x in vs[i].tagList {
        var i :| 0 <= i < |vs| && Counted(vs[i]) && x in vs[i].tagList;
        if i < |init| {
          assert vs[i] == init[i];
        }
      }
    }
  }

  // ------------------------------------------------ what the passes gather

  /** The tags of the pinged devices. */
  function PingedTags(ds: seq<DeviceInfo>): set<string> {
    if ds == [] then {}
    else
      var d := ds[|ds| - 1];
      PingedTags(ds[..|ds| - 1]) + (if d.isPinged then Elems(d.tagList) else {})
  }

  /** Every tag some device carries. */
  function Carried(ds: seq<DeviceInfo>): set<string> {
    if ds == [] then {} else Carried(ds[..|ds| - 1]) + Elems(ds[|ds| - 1].tagList)
  }

  /** The metric tags of the devices that carry device tag `t`. */
  function FedTags(ds: seq<DeviceInfo>, t: string): set<string> {
    if ds == [] then {}
    else
      var d := ds[|ds| - 1];
      FedTags(ds[..|ds| - 1], t) + (if t in d.tagList then Elems(MetricTags(d.varbinds)) else {})
  }

  /** The metric tags of the devices with no tags at all. */
  function Untagged(ds: seq<DeviceInfo>): set<string> {
    if ds == [] then {}
    else
      var d := ds[|ds| - 1];
      Untagged(ds[..|ds| - 1]) + (if d.tagList == [] then Elems(MetricTags(d.varbinds)) else {})
  }

  /** `latency` when a pinged device carries `t`. */
  function Latency(ds: seq<DeviceInfo>, t: string): set<string> {
    if t in PingedTags(ds) then {"latency"} else {}
  }

  /** What device tag `t` itself gathers: `latency` and, unless it starts with `$`, its devices' metric tags. */
  function Base(ds: seq<DeviceInfo>, t: string): set<string> {
    Latency(ds, t) + (if Feeds(t) then FedTags(ds, t) else {})
  }

  /** The list filed under `t`, as a set; nothing for a missing key. */
  function Get(m: Directory, t: string): set<string> {
    if t in m then Elems(m[t]) else {}
  }

  lemma {:induction false} FedTagsCarried(ds: seq<DeviceInfo>, t: string)
    requires FedTags(ds, t) != {}
    ensures t in Carried(ds)
  {
    var init := ds[..|ds| - 1];
    if FedTags(init, t) != {} {
      FedTagsCarried(init, t);
    }
  }

  lemma ElemsAppend(a: seq<string>, b: seq<string>)
    ensures Elems(a + b) == Elems(a) + Elems(b)
  {
  }

  lemma ElemsEmpty(a: seq<string>)
    ensures Elems(a) == {} <==> a == []
  {
    if a != [] {
      assert a[0] in Elems(a);
    }
  }

  // --------------------------------------------- the passes, as functions

  /** `tl.forEach((tag) => tags[tag] = ['latency'])`. */
  function MarkTags(tags: Directory, tl: seq<string>): Directory {
    if tl == [] then tags else MarkTags(tags, tl[..|tl| - 1])[tl[|tl| - 1] := ["latency"]]
  }

  /** The first pass over the devices `ds`. */
  function MarkDevices(ds: seq<DeviceInfo>): Directory {
    if ds == [] then map["All" := []]
    else
      var d := ds[|ds| - 1];
      var r := MarkDevices(ds[..|ds| - 1]);
      if d.isPinged then MarkTags(r, d.tagList) else r
  }

  /** The second pass for one device's tags: each tag that feeds receives `m`, created when missing. */
  function FeedTags(tags: Directory, tl: seq<string>, m: seq<string>): Directory {
    if tl == [] then tags
    else
      var r := FeedTags(tags, tl[..|tl| - 1], m);
      var tag := tl[|tl| - 1];
      if Feeds(tag) then r[tag := (if tag in r then r[tag] else []) + m] else r
  }

  /** The second pass for one device; an untagged device feeds `All`. */
  function FeedDevice(tags: Directory, d: DeviceInfo): Directory {
    var m := MetricTags(d.varbinds);
    var r := FeedTags(tags, d.tagList, m);
    if d.tagList == [] then r["All" := (if "All" in r then r["All"] else []) + m] else r
  }

  /** The second pass over the devices `ds`. */
  function FeedDevices(tags: Directory, ds: seq<DeviceInfo>): Directory {
    if ds == [] then tags else FeedDevice(FeedDevices(tags, ds[..|ds| - 1]), ds[|ds| - 1])
  }

  // ------------------------------------------ what the passes' results hold

  lemma {:induction false} MarkTagsSpec(tags: Directory, tl: seq<string>, t: string)
    ensures t in MarkTags(tags, tl) <==> t in tags || t in tl
    ensures t in tl ==> MarkTags(tags, tl)[t] == ["latency"]
    ensures t !in tl && t in tags ==> MarkTags(tags, tl)[t] == tags[t]
  {
    if tl != [] {
      MarkTagsSpec(tags, tl[..|tl| - 1], t);
      assert tl == tl[..|tl| - 1] + [tl[|tl| - 1]];
    }
  }

  /** After the first pass `All` is present and each key holds `latency` exactly when a pinged device carries it. */
  lemma {:induction false} MarkDevicesSpec(ds: seq<DeviceInfo>, t: string)
    ensures t in MarkDevices(ds) <==> t == "All" || t in PingedTags(ds)
    ensures Get(MarkDevices(ds), t) == Latency(ds, t)
  {
    if ds != [] {
      var init := ds[..|ds| - 1];
      MarkDevicesSpec(init, t);
      if ds[|ds| - 1].isPinged {
        MarkTagsSpec(MarkDevices(init), ds[|ds| - 1].tagList, t);
        assert Elems(["latency"]) == {"latency"};
      }
    }
  }

  lemma {:induction false} FeedTagsSpec(tags: Directory, tl: seq<string>, m: seq<string>, t: string)
    ensures t in FeedTags(tags, tl, m) <==> t in tags || (Feeds(t) && t in tl)
    ensures Get(FeedTags(tags, tl, m), t) == Get(tags, t) + (if Feeds(t) && t in tl then Elems(m) else {})
  {
    if tl != [] {
      var init := tl[..|tl| - 1];
      FeedTagsSpec(tags, init, m, t);
      assert tl == init + [tl[|tl| - 1]];
      var r := FeedTags(tags, init, m);
      if Feeds(tl[|tl| - 1]) && t == tl[|tl| - 1] {
        ElemsAppend(if t in r then r[t] else [], m);
      }
    }
  }

  lemma FeedDeviceSpec(tags: Directory, d: DeviceInfo, t: string)
    ensures t in FeedDevice(tags, d) <==> t in tags || (Feeds(t) && t in d.tagList) || (t == "All" && d.tagList == [])
    ensures Get(FeedDevice(tags, d), t) == Get(tags, t)
      + (if Feeds(t) && t in d.tagList then Elems(MetricTags(d.varbinds)) else {})
      + (if t == "All" && d.tagList == [] then Elems(MetricTags(d.varbinds)) else {})
  {
    var m := MetricTags(d.varbinds);
    FeedTagsSpec(tags, d.tagList, m, t);
    if t == "All" && d.tagList == [] {
      var r := FeedTags(tags, d.tagList, m);
      ElemsAppend(if "All" in r then r["All"] else [], m);
    }
  }

  /** After the second pass each key holds what it had plus what its devices (or, for `All`, the untagged ones) feed. */
  lemma {:induction false} FeedDevicesSpec(tags: Directory, ds: seq<DeviceInfo>, t: string)
    requires "All" in tags
    ensures t in FeedDevices(tags, ds) <==> t in tags || (Feeds(t) && t in Carried(ds))
    ensures Get(FeedDevices(tags, ds), t) == Get(tags, t)
      + (if Feeds(t) then FedTags(ds, t) else {})
      + (if t == "All" then Untagged(ds) else {})
  {
    if ds != [] {
      var init := ds[..|ds| - 1];
      FeedDevicesSpec(tags, init, t);
      FeedDevicesSpec(tags, init, "All");
      FeedDeviceSpec(FeedDevices(tags, init), ds[|ds| - 1], t);
    }
  }

  /** What the first two passes leave under each key. */
  function Fed(ds: seq<DeviceInfo>): Directory {
    FeedDevices(MarkDevices(ds), ds)
  }

  /** After the second pass a key is present when `All`, pinged or fed, and holds what it gathers. */
  lemma FedSpec(ds: seq<DeviceInfo>, t: string)
    ensures t in Fed(ds) <==> t == "All" || t in PingedTags(ds) || (Feeds(t) && t in Carried(ds))
    ensures Get(Fed(ds), t) == Base(ds, t) + (if t == "All" then Untagged(ds) else {})
  {
    MarkDevicesSpec(ds, t);
    MarkDevicesSpec(ds, "All");
    FeedDevicesSpec(MarkDevices(ds), ds, t);
  }

  /** After the third pass the keys besides `All` are exactly those that gather something. */
  lemma KeptSpec(ds: seq<DeviceInfo>, kept: Directory, t: string)
    requires forall k :: k in kept <==> k in Fed(ds) && (k == "All" || Fed(ds)[k] != [])
    requires forall k :: k in kept ==> kept[k] == Fed(ds)[k]
    ensures t in kept <==> t == "All" || Base(ds, t) != {}
    ensures Get(kept, t) == Base(ds, t) + (if t == "All" then Untagged(ds) else {})
  {
    FedSpec(ds, t);
    FedSpec(ds, "All");
    if Feeds(t) && FedTags(ds, t) != {} {
      FedTagsCarried(ds, t);
    }
    if t in Fed(ds) {
      ElemsEmpty(Fed(ds)[t]);
    }
  }

  /** After the fourth pass `All` holds the untagged metric tags and whatever any key gathers. */
  lemma AllGathers(ds: seq<DeviceInfo>, kept: Directory, x: string)
    requires forall t :: t in kept <==> t == "All" || Base(ds, t) != {}
    requires forall t :: Get(kept, t) == Base(ds, t) + (if t == "All" then Untagged(ds) else {})
    ensures (exists t :: t in kept && x in kept[t]) <==> x in Untagged(ds) || exists t :: x in Base(ds, t)
  {
    if x in Untagged(ds) {
      assert x in Get(kept, "All");
    } else if exists t :: x in Base(ds, t) {
      var t :| x in Base(ds, t);
      assert x in Get(kept, t);
    }
    if exists t :: t in kept && x in kept[t] {
      var t :| t in kept && x in kept[t];
      assert x in Get(kept, t);
    }
  }

  lemma DedupSameElems(s: seq<string>)
    ensures Elems(Dedup(s)) == Elems(s)
  {
    forall x | x in s ensures x in Dedup(s) {
      DedupMember(s, x);
    }
  }

  // ------------------------------------------------------------ the passes

  /** `tags[tag].push.apply(tags[tag], v.tag_list || [])` for each counted metric. */
  method AppendMetricTags(list: seq<string>, vs: seq<Varbind>) returns (r: seq<string>)
    ensures r == list + MetricTags(vs)
  {
    r := list;
    for i := 0 to |vs|
      invariant r == list + MetricTags(vs[..i])
    {
      assert vs[..i + 1][..i] == vs[..i];
      if Counted(vs[i]) {
        r := r + vs[i].tagList;
      }
    }
    assert vs[..|vs|] == vs;
  }

  /** First pass: `All` starts empty and every tag of a pinged device maps to `['latency']`. */
  method MarkPinged(ds: seq<DeviceInfo>) returns (tags: Directory)
    ensures tags == MarkDevices(ds)
  {
    tags := map["All" := []];
    for i := 0 to |ds|
      invariant tags == MarkDevices(ds[..i])
    {
      assert ds[..i + 1][..i] == ds[..i];
      if ds[i].isPinged {
        var tl := ds[i].tagList;
        ghost var before := tags;
        for j := 0 to |tl|
          invariant tags == MarkTags(before, tl[..j])
        {
          assert tl[..j + 1][..j] == tl[..j];
          tags := tags[tl[j] := ["latency"]];
        }
        assert tl[..|tl|] == tl;
      }
    }
    assert ds[..|ds|] == ds;
  }

  /**
   * The second pass for one device: each of its tags not starting with `$`
   * is created when missing and receives the device's metric tags; a device
   * without tags feeds `All` instead.
   */
  method FeedOne(tags0: Directory, d: DeviceInfo) returns (tags: Directory)
    ensures tags == FeedDevice(tags0, d)
  {
    tags := tags0;
    for j := 0 to |d.tagList|
      invariant tags == FeedTags(tags0, d.tagList[..j], MetricTags(d.varbinds))
    {
      assert d.tagList[..j + 1][..j] == d.tagList[..j];
      var tag := d.tagList[j];
      if Feeds(tag) {
        if tag !in tags {
          tags := tags[tag := []];
        }
        var l := AppendMetricTags(tags[tag], d.varbinds);
        tags := tags[tag := l];
      }
    }
    assert d.tagList[..|d.tagList|] == d.tagList;
    if |d.tagList| == 0 {
      var all := if "All" in tags then tags["All"] else [];
      var l := AppendMetricTags(all, d.varbinds);
      tags := tags["All" := l];
    }
  }

  /** Second pass over all devices. */
  method FeedPass(ds: seq<DeviceInfo>, tags0: Directory) returns (tags: Directory)
    ensures tags == FeedDevices(tags0, ds)
  {
    tags := tags0;
    for i := 0 to |ds|
      invariant tags == FeedDevices(tags0, ds[..i])
    {
      assert ds[..i + 1][..i] == ds[..i];
      tags := FeedOne(tags, ds[i]);
    }
    assert ds[..|ds|] == ds;
  }

  /** Third pass: `delete` every key but `All` whose list is empty. */
  method DropEmpty(tags0: Directory) returns (tags: Directory)
    ensures forall t :: t in tags <==> t in tags0 && (t == "All" || tags0[t] != [])
    ensures forall t :: t in tags ==> tags[t] == tags0[t]
  {
    tags := tags0;
    var todo := tags0.Keys;
    while todo != {}
      invariant todo <= tags0.Keys
      invariant forall t :: t in tags <==> t in tags0 && (t in todo || t == "All" || tags0[t] != [])
      invariant forall t :: t in tags ==> tags[t] == tags0[t]
      decreases |todo|
    {
      var t :| t in todo;
      if tags[t] == [] && t != "All" {
        tags := tags - {t};
      }
      todo := todo - {t};
    }
  }

  /** Fourth pass: append every key's list, `All`'s own included, to `All`. */
  method CollectIntoAll(tags0: Directory) returns (tags: Directory)
    requires "All" in tags0
    ensures "All" in tags && tags == tags0["All" := tags["All"]]
    ensures forall x :: x in tags["All"] <==> exists t :: t in tags0 && x in tags0[t]
  {
    var all := tags0["All"];
    var todo := tags0.Keys;
    while todo != {}
      invariant todo <= tags0.Keys
      invariant forall x :: x in all <==> x in tags0["All"] || exists t :: t in tags0 && t !in todo && x in tags0[t]
      decreases |todo|
    {
      var t :| t in todo;
      var list := if t == "All" then all else tags0[t];
      all := all + list;
      todo := todo - {t};
    }
    tags := tags0["All" := all];
  }

  /** Fifth pass: `filter((t, idx, tags) => tags.indexOf(t) == idx)` on every list. */
  method DedupLists(tags0: Directory) returns (tags: Directory)
    ensures tags.Keys == tags0.Keys
    ensures forall t :: t in tags ==> tags[t] == Dedup(tags0[t])
  {
    tags := tags0;
    var todo := tags0.Keys;
    while todo != {}
      invariant forall t :: t in todo ==> t in tags0
      invariant forall t :: t in tags <==> t in tags0
      invariant forall t :: t in todo ==> tags[t] == tags0[t]
      invariant forall t :: t in tags && t !in todo ==> tags[t] == Dedup(tags0[t])
      decreases |todo|
    {
      var t :| t in todo;
      var list := Dedup(tags0[t]);
      tags := tags[t := list];
      todo := todo - {t};
    }
    assert tags.Keys == tags0.Keys;
  }

  /**
   * `getTagList()`: `All` is always a key; another key is present exactly
   * when it gathers something, and then holds exactly what it gathers;
   * every list is free of repeats; `All` holds the metric tags of untagged
   * devices and everything any key gathers, so it contains every other list;
   * a `$` tag holds at most `latency`.
   */
  method TagList(ds: seq<DeviceInfo>) returns (tags: Directory)
    ensures "All" in tags
    ensures forall t :: t in tags <==> t == "All" || Base(ds, t) != {}
    ensures forall t :: t in tags ==> NoDups(tags[t])
    ensures forall t :: t in tags && t != "All" ==> tags[t] != [] && Elems(tags[t]) == Base(ds, t)
    ensures forall x :: x in tags["All"] <==> x in Untagged(ds) || exists t :: x in Base(ds, t)
    ensures forall t, x :: t in tags && x in tags[t] ==> x in tags["All"]
    ensures forall t :: t in tags && t != "" && t[0] == '$' ==> Elems(tags[t]) <= {"latency"}
  {
    var marked := MarkPinged(ds);
    var fed := FeedPass(ds, marked);
    var kept := DropEmpty(fed);
    FedSpec(ds, "All");
    var collected := CollectIntoAll(kept);
    tags := DedupLists(collected);
    KeptFacts(ds, kept);
    AllFacts(ds, kept, collected, tags);
    ListFacts(ds, kept, collected, tags);
    Containment(ds, tags);
  }

  /** Every list is inside `All`, and a `$` tag, which receives no metric tags, holds at most `latency`. */
  lemma Containment(ds: seq<DeviceInfo>, tags: Directory)
    requires "All" in tags
    requires forall x :: x in tags["All"] <==> x in Untagged(ds) || exists t :: x in Base(ds, t)
    requires forall t :: t in tags && t != "All" ==> tags[t] != [] && Elems(tags[t]) == Base(ds, t)
    ensures forall t, x :: t in tags && x in tags[t] ==> x in tags["All"]
    ensures forall t :: t in tags && t != "" && t[0] == '$' ==> Elems(tags[t]) <= {"latency"}
  {
    forall t, x | t in tags && x in tags[t] ensures x in tags["All"] {
      if t != "All" {
        assert x in Base(ds, t);
      }
    }
  }

  lemma KeptFacts(ds: seq<DeviceInfo>, kept: Directory)
    requires forall t :: t in kept <==> t in Fed(ds) && (t == "All" || Fed(ds)[t] != [])
    requires forall t :: t in kept ==> kept[t] == Fed(ds)[t]
    ensures forall t :: t in kept <==> t == "All" || Base(ds, t) != {}
    ensures forall t :: Get(kept, t) == Base(ds, t) + (if t == "All" then Untagged(ds) else {})
  {
    forall t ensures (t in kept <==> t == "All" || Base(ds, t) != {})
      && Get(kept, t) == Base(ds, t) + (if t == "All" then Untagged(ds) else {})
    {
      KeptSpec(ds, kept, t);
    }
  }

  /** After the last two passes `All` holds the untagged metric tags and whatever any key gathers. */
  lemma AllFacts(ds: seq<DeviceInfo>, kept: Directory, collected: Directory, tags: Directory)
    requires forall t :: t in kept <==> t == "All" || Base(ds, t) != {}
    requires forall t :: Get(kept, t) == Base(ds, t) + (if t == "All" then Untagged(ds) else {})
    requires "All" in collected
    requires forall x :: x in collected["All"] <==> exists t :: t in kept && x in kept[t]
    requires tags.Keys == collected.Keys
    requires forall t :: t in tags ==> tags[t] == Dedup(collected[t])
    ensures "All" in tags
    ensures forall x :: x in tags["All"] <==> x in Untagged(ds) || exists t :: x in Base(ds, t)
  {
    forall x ensures x in tags["All"] <==> x in Untagged(ds) || exists t :: x in Base(ds, t) {
      AllGathers(ds, kept, x);
      DedupMember(collected["All"], x);
    }
  }

  /** After the last two passes every other key holds, once each, exactly what it gathers. */
  lemma ListFacts(ds: seq<DeviceInfo>, kept: Directory, collected: Directory, tags: Directory)
    requires forall t :: t in kept <==> t == "All" || Base(ds, t) != {}
    requires forall t :: Get(kept, t) == Base(ds, t) + (if t == "All" then Untagged(ds) else {})
    requires "All" in kept && "All" in collected && collected == kept["All" := collected["All"]]
    requires tags.Keys == collected.Keys
    requires forall t :: t in tags ==> tags[t] == Dedup(collected[t])
    ensures forall t :: t in tags && t != "All" ==> tags[t] != [] && Elems(tags[t]) == Base(ds, t)
  {
    forall t | t in tags && t != "All" ensures tags[t] != [] && Elems(tags[t]) == Base(ds, t) {
      assert Get(kept, t) == Base(ds, t);
      DedupSameElems(collected[t]);
      ElemsEmpty(tags[t]);
    }
  }
}
