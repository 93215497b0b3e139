/**
 * The bookkeeping of one polling pass (models/device.js:299-409): the
 * collectors' answers are spread over the metrics, the metrics are
 * refreshed in a fixed order, the changed ones are written back, the
 * device's liveness and status follow, and the history and change rows are
 * prepared. The collectors, the expression evaluator and the metric status
 * rules are not part of this model; they are supplied functions.
 */
module Poll {
  import opened Wrappers
  import opened Seqs
  import opened Js
  import opened Devices
  import opened Normaliser

  // ------------------------------------------------ collecting the values

  /** The `err` a collector hands back: nothing, an `Error`, or some other value. */
  datatype CallError = NoError | ErrorObject(message: string) | OtherError(value: JsValue)

  /** `(err) ? … : …`: the collector reported a failure. */
  predicate Raised(e: CallError) {
    e.ErrorObject? || (e.OtherError? && Truthy(e.value))
  }

  /** `err.message`: undefined for a value that is not an `Error`. */
  function MessageOf(e: CallError): JsValue {
    if e.ErrorObject? then Str(e.message) else Undefined
  }

  /** An entry of `values`: `{isError, value}`. */
  datatype Reading = Reading(isError: bool, value: JsValue)

  /** What `getValues(opts, addresses, callback)` calls back with. */
  datatype Response = Response(err: CallError, res: seq<Reading>)

  /** `getValues` of the protocol named first, given the settings and the addresses. */
  type Collector = (string, Protocol, seq<string>) -> Response

  /** `device.varbind_list.filter((v) => v.protocol == name)`. */
  function OfProtocol(vs: seq<Varbind>, name: string): (batch: seq<Varbind>)
    ensures |batch| <= |vs|
    ensures forall i :: 0 <= i < |batch| ==> batch[i].protocol == name && batch[i] in vs
  {
    if vs == [] then []
    else
      var rest := OfProtocol(vs[..|vs| - 1], name);
      if vs[|vs| - 1].protocol == name then rest + [vs[|vs| - 1]] else rest
  }

  /** The batch holds every metric of the protocol and nothing else. */
  lemma {:induction false} OfProtocolMembers(vs: seq<Varbind>, name: string, v: Varbind)
    ensures v in OfProtocol(vs, name) <==> v in vs && v.protocol == name
  {
    if vs != [] {
      var init := vs[..|vs| - 1];
      OfProtocolMembers(init, name, v);
      assert vs == init + [vs[|vs| - 1]];
    }
  }

  /** The filter keeps the list's order: filtering a concatenation concatenates the filtered parts. */
  lemma {:induction false} OfProtocolConcat(a: seq<Varbind>, b: seq<Varbind>, name: string)
    ensures OfProtocol(a + b, name) == OfProtocol(a, name) + OfProtocol(b, name)
    decreases |b|
  {
    if b == [] {
      assert a + b == a;
    } else {
      var init, last := b[..|b| - 1], b[|b| - 1];
      var ab := a + b;
      assert ab[..|ab| - 1] == a + init && ab[|ab| - 1] == last;
      OfProtocolConcat(a, init, name);
      assert OfProtocol(b, name) == OfProtocol(init, name) + (if last.protocol == name then [last] else []);
    }
  }

  /** `varbind_list.map((v) => v.address)`. */
  function AddressesOf(batch: seq<Varbind>): (r: seq<string>)
    ensures |r| == |batch|
    ensures forall i :: 0 <= i < |r| ==> r[i] == batch[i].address
  {
    if batch == [] then [] else AddressesOf(batch[..|batch| - 1]) + [batch[|batch| - 1].address]
  }

  /** What metric `i` of a batch receives: the error for every metric, or `res[i]`, or nothing past the end. */
  function ReadingFor(resp: Response, i: nat): Option<Reading> {
    if Raised(resp.err) then Some(Reading(true, MessageOf(resp.err)))
    else if i < |resp.res| then Some(resp.res[i])
    else None
  }

  /** `varbind_list.forEach((v, i) => values[v.id] = …)` over the first `k` metrics of the batch. */
  function Distribute(values: map<int, Reading>, batch: seq<Varbind>, resp: Response, k: nat): map<int, Reading>
    requires k <= |batch|
  {
    if k == 0 then values
    else
      var prior := Distribute(values, batch, resp, k - 1);
      var r := ReadingFor(resp, k - 1);
      if r.Some? then prior[batch[k - 1].id := r.value] else prior - {batch[k - 1].id}
  }

  /** A protocol is asked only when the device has settings for it and metrics of it. */
  predicate Called(protocols: map<string, Protocol>, vs: seq<Varbind>, name: string) {
    name in protocols && |OfProtocol(vs, name)| > 0
  }

  /** The collection state: the `values` object, the `errors` array and the device's protocol settings. */
  datatype Collected = Collected(values: map<int, Reading>, errors: seq<CallError>, protocols: map<string, Protocol>)

  /** One step of the `eachOfSeries`: ask the protocol `name` if the device uses it. */
  function AskOne(c: Collected, name: string, vs: seq<Varbind>, ip: string, respond: Collector): Collected {
    var batch := OfProtocol(vs, name);
    if |batch| == 0 || name !in c.protocols then c
    else
      var opts := c.protocols[name]["ip" := Str(ip)];
      var resp := respond(name, opts, AddressesOf(batch));
      Collected(Distribute(c.values, batch, resp, |batch|), c.errors + [resp.err], c.protocols[name := opts])
  }

  /** The `eachOfSeries` over the first `k` loaded protocols. */
  function CollectUpTo(plugins: seq<string>, k: nat, vs: seq<Varbind>, ip: string,
                       protocols: map<string, Protocol>, respond: Collector): Collected
    requires k <= |plugins|
  {
    if k == 0 then Collected(map[], [], protocols)
    else AskOne(CollectUpTo(plugins, k - 1, vs, ip, protocols, respond), plugins[k - 1], vs, ip, respond)
  }

  /**
   * A failed call gives every metric of its batch the error and its message;
   * otherwise, with distinct ids, metric `i` receives `res[i]`, or no entry
   * past the end of `res`; entries of other metrics are kept.
   */
  lemma {:induction false} DistributeSpec(values: map<int, Reading>, batch: seq<Varbind>, resp: Response, k: nat, id: int)
    requires k <= |batch|
    ensures (forall i :: 0 <= i < k ==> batch[i].id != id) ==>
      (id in Distribute(values, batch, resp, k) <==> id in values)
      && (id in values ==> Distribute(values, batch, resp, k)[id] == values[id])
    ensures Raised(resp.err) && (exists i :: 0 <= i < k && batch[i].id == id) ==>
      id in Distribute(values, batch, resp, k)
      && Distribute(values, batch, resp, k)[id] == Reading(true, MessageOf(resp.err))
  {
    if k > 0 {
      DistributeSpec(values, batch, resp, k - 1, id);
    }
  }

  /** With distinct ids in the batch and no failure, each metric holds its own reading. */
  lemma {:induction false} DistributeReadings(values: map<int, Reading>, batch: seq<Varbind>, resp: Response, k: nat, i: nat)
    requires k <= |batch| && i < k
    requires forall a, b :: 0 <= a < b < |batch| ==> batch[a].id != batch[b].id
    ensures var r := ReadingFor(resp, i);
      && (batch[i].id in Distribute(values, batch, resp, k) <==> r.Some?)
      && (r.Some? ==> Distribute(values, batch, resp, k)[batch[i].id] == r.value)
  {
    if i < k - 1 {
      DistributeReadings(values, batch, resp, k - 1, i);
    }
  }

  /** Whether the loaded protocol at a position is asked. */
  function AskedAt(plugins: seq<string>, vs: seq<Varbind>, protocols: map<string, Protocol>): nat -> bool {
    (j: nat) => j < |plugins| && Called(protocols, vs, plugins[j])
  }

  /** The protocols asked among the first `k` loaded ones, by position. */
  ghost function CalledAt(plugins: seq<string>, k: nat, vs: seq<Varbind>, protocols: map<string, Protocol>): set<nat> {
    set j: nat | j < k && AskedAt(plugins, vs, protocols)(j)
  }

  /** Counting the positions below `k` that satisfy `p`, one position at a time. */
  lemma CountBelowStep(p: nat -> bool, k: nat)
    requires k > 0
    ensures |set j: nat | j < k && p(j)| == |set j: nat | j < k - 1 && p(j)| + if p(k - 1) then 1 else 0
  {
    var before := set j: nat | j < k - 1 && p(j);
    var after := set j: nat | j < k && p(j);
    if p(k - 1) {
      assert after == before + {k - 1};
    } else {
      assert after == before;
    }
  }

  /** The device's protocol settings keep their names through the pass. */
  lemma {:induction false} KeysKept(plugins: seq<string>, k: nat, vs: seq<Varbind>, ip: string,
                                    protocols: map<string, Protocol>, respond: Collector)
    requires k <= |plugins|
    ensures CollectUpTo(plugins, k, vs, ip, protocols, respond).protocols.Keys == protocols.Keys
  {
    if k > 0 {
      KeysKept(plugins, k - 1, vs, ip, protocols, respond);
    }
  }

  /** A step pushes an error entry exactly when it asks the protocol. */
  lemma AskOneErrors(c: Collected, name: string, vs: seq<Varbind>, ip: string, respond: Collector)
    ensures |AskOne(c, name, vs, ip, respond).errors|
      == |c.errors| + if Called(c.protocols, vs, name) then 1 else 0
  {
  }

  /** One error entry is pushed per protocol asked. */
  lemma {:induction false} ErrorsPerCall(plugins: seq<string>, k: nat, vs: seq<Varbind>, ip: string,
                                         protocols: map<string, Protocol>, respond: Collector)
    requires k <= |plugins|
    ensures |CollectUpTo(plugins, k, vs, ip, protocols, respond).errors| == |CalledAt(plugins, k, vs, protocols)|
  {
    if k > 0 {
      var c := CollectUpTo(plugins, k - 1, vs, ip, protocols, respond);
      ErrorsPerCall(plugins, k - 1, vs, ip, protocols, respond);
      KeysKept(plugins, k - 1, vs, ip, protocols, respond);
      AskOneErrors(c, plugins[k - 1], vs, ip, respond);
      var p := AskedAt(plugins, vs, protocols);
      CountBelowStep(p, k);
      assert p(k - 1) == Called(c.protocols, vs, plugins[k - 1]);
    }
  }

  /** `opts.ip = device.ip`: the settings of every protocol asked carry the device's address; the others are untouched. */
  lemma {:induction false} StampsAddress(plugins: seq<string>, k: nat, vs: seq<Varbind>, ip: string,
                                         protocols: map<string, Protocol>, respond: Collector, name: string)
    requires k <= |plugins| && name in protocols
    ensures var c := CollectUpTo(plugins, k, vs, ip, protocols, respond);
      && name in c.protocols
      && c.protocols[name] == if Called(protocols, vs, name) && name in plugins[..k]
                              then protocols[name]["ip" := Str(ip)] else protocols[name]
  {
    if k > 0 {
      var c0 := CollectUpTo(plugins, k - 1, vs, ip, protocols, respond);
      StampsAddress(plugins, k - 1, vs, ip, protocols, respond, name);
      KeysKept(plugins, k - 1, vs, ip, protocols, respond);
      AskOneProtocols(c0, plugins[k - 1], vs, ip, respond);
      assert plugins[..k] == plugins[..k - 1] + [plugins[k - 1]];
    }
  }

  /** A step stamps the address on the settings of the protocol it asks, and on nothing else. */
  lemma AskOneProtocols(c: Collected, name: string, vs: seq<Varbind>, ip: string, respond: Collector)
    ensures AskOne(c, name, vs, ip, respond).protocols
         == if Called(c.protocols, vs, name) then c.protocols[name := c.protocols[name]["ip" := Str(ip)]] else c.protocols
  {
  }

  /** The inner `forEach`: spread one response over its batch. */
  method Spread(values0: map<int, Reading>, batch: seq<Varbind>, resp: Response) returns (values: map<int, Reading>)
    ensures values == Distribute(values0, batch, resp, |batch|)
  {
    values := values0;
    for i := 0 to |batch|
      invariant values == Distribute(values0, batch, resp, i)
    {
      if Raised(resp.err) {
        values := values[batch[i].id := Reading(true, MessageOf(resp.err))];
      } else if i < |resp.res| {
        values := values[batch[i].id := resp.res[i]];
      } else {
        values := values - {batch[i].id};
      }
    }
  }

  /** Collect the values of one pass: each loaded protocol the device uses is asked once. */
  method Collect(plugins: seq<string>, vs: seq<Varbind>, ip: string, protocols0: map<string, Protocol>, respond: Collector)
    returns (values: map<int, Reading>, errors: seq<CallError>, protocols: map<string, Protocol>)
    ensures Collected(values, errors, protocols) == CollectUpTo(plugins, |plugins|, vs, ip, protocols0, respond)
  {
    values, errors, protocols := map[], [], protocols0;
    for k := 0 to |plugins|
      invariant Collected(values, errors, protocols) == CollectUpTo(plugins, k, vs, ip, protocols0, respond)
    {
      var name := plugins[k];
      var batch := OfProtocol(vs, name);
      if |batch| == 0 || name !in protocols {
        continue;
      }
      var opts := protocols[name]["ip" := Str(ip)];
      protocols := protocols[name := opts];
      var resp := respond(name, opts, AddressesOf(batch));
      errors := errors + [resp.err];
      values := Spread(values, batch, resp);
    }
  }

  // ------------------------------------------------ refreshing the metrics

  /** What `calcExpressionValue()` yields: a value, or an `Error` (written as its text). */
  datatype ExprResult = Value(value: JsValue) | Failure(text: string)

  /**
   * The collaborators of a pass that are not part of this model: the clock's
   * `time`, the host library, the divider mode, the expression evaluator (given
   * the metric and the device's metric list as it stands) and the metric's own
   * `updateStatus()` (the metric's new `prev_status` and `status`).
   */
  datatype PassEnv = PassEnv(
    time: int,
    env: Builtins,
    mode: Mode,
    evaluate: (Varbind, seq<Varbind>) -> ExprResult,
    rule: Varbind -> (int, int))

  /** `(isError) ? 'ERR: ' + value : applyDivider(value, divider)` for a collected metric. */
  function ReadingValue(r: Reading, divider: Divider, pe: PassEnv): JsValue {
    if r.isError then Str("ERR: " + ToText(r.value, pe.env)) else ApplyDivider(r.value, divider, pe.env, pe.mode)
  }

  /** The same for an expression metric, whose failure is an `Error`. */
  function ExprValue(r: ExprResult, divider: Divider, pe: PassEnv): JsValue {
    match r
    case Failure(text) => Str("ERR: " + text)
    case Value(v) => ApplyDivider(v, divider, pe.env, pe.mode)
  }

  /**
   * `update(varbind)` with the new value already computed: the old value and
   * time become the previous ones, the metric rescores itself and is stamped
   * with the pass's time; nothing else about it changes.
   */
  function Refresh(v: Varbind, value: JsValue, pe: PassEnv): (w: Varbind)
    ensures w.id == v.id && w.isExpression == v.isExpression && w.isTemporary == v.isTemporary
    ensures w.valueType == v.valueType && w.name == v.name && w.isStatus == v.isStatus
    ensures w.value == value && w.prevValue == v.value
    ensures w.valueTime == Some(pe.time) && w.prevValueTime == v.valueTime
  {
    var u := v.(prevValue := v.value, value := value);
    var rescored := pe.rule(u);
    u.(prevStatus := rescored.0, status := rescored.1, prevValueTime := v.valueTime, valueTime := Some(pe.time))
  }

  /** The first round: every collected metric that is not an expression is refreshed from its reading. */
  function Collected1(v: Varbind, values: map<int, Reading>, pe: PassEnv): Varbind {
    if !v.isExpression && v.id in values then Refresh(v, ReadingValue(values[v.id], v.divider, pe), pe) else v
  }

  function Round1(vs: seq<Varbind>, values: map<int, Reading>, pe: PassEnv): seq<Varbind> {
    seq(|vs|, i requires 0 <= i < |vs| => Collected1(vs[i], values, pe))
  }

  /**
   * The second round over the first `k` metrics: each expression is evaluated
   * against the list as the earlier updates left it, then refreshed.
   */
  function Round2(vs: seq<Varbind>, k: nat, pe: PassEnv): (r: seq<Varbind>)
    requires k <= |vs|
    ensures |r| == |vs|
  {
    if k == 0 then vs
    else
      var prior := Round2(vs, k - 1, pe);
      var v := prior[k - 1];
      if v.isExpression then prior[k - 1 := Refresh(v, ExprValue(pe.evaluate(v, prior), v.divider, pe), pe)] else prior
  }

  /**
   * The list an expression sees: every earlier expression is already in its
   * final form, it and every later metric are as the first round left them.
   */
  lemma {:induction false} Round2Seen(vs: seq<Varbind>, k: nat, pe: PassEnv, j: nat)
    requires k <= |vs| && j < |vs|
    ensures Round2(vs, k, pe)[j] == if j < k then Round2(vs, |vs|, pe)[j] else vs[j]
  {
    if j < k {
      Round2Later(vs, k, |vs|, pe, j);
    } else if k > 0 {
      Round2Seen(vs, k - 1, pe, j);
    }
  }

  /** Positions before `k` are not touched again after the `k`th step. */
  lemma {:induction false} Round2Later(vs: seq<Varbind>, k: nat, n: nat, pe: PassEnv, j: nat)
    requires k <= n <= |vs| && j < k
    ensures Round2(vs, n, pe)[j] == Round2(vs, k, pe)[j]
    decreases n
  {
    if n > k {
      Round2Later(vs, k, n - 1, pe, j);
    }
  }

  /**
   * Refreshing after the collection: a metric that is not an expression is
   * refreshed exactly when it received a reading, each expression exactly
   * once, from the list as `Round2` describes it; the order of the list is kept.
   */
  method RefreshAll(vs: seq<Varbind>, values: map<int, Reading>, pe: PassEnv) returns (r: seq<Varbind>)
    ensures r == Round2(Round1(vs, values, pe), |vs|, pe)
  {
    r := vs;
    for i := 0 to |vs|
      invariant |r| == |vs|
      invariant forall j :: 0 <= j < |vs| ==> r[j] == if j < i then Collected1(vs[j], values, pe) else vs[j]
    {
      if !vs[i].isExpression && vs[i].id in values {
        r := r[i := Refresh(vs[i], ReadingValue(values[vs[i].id], vs[i].divider, pe), pe)];
      }
    }
    ghost var first := r;
    assert first == Round1(vs, values, pe);
    for i := 0 to |vs|
      invariant r == Round2(first, i, pe)
    {
      if r[i].isExpression {
        r := r[i := Refresh(r[i], ExprValue(pe.evaluate(r[i], r), r[i].divider, pe), pe)];
      }
    }
  }

  /** Each metric after the refresh, in terms of the metric before it. */
  lemma RefreshOutcome(vs: seq<Varbind>, values: map<int, Reading>, pe: PassEnv, i: nat)
    requires i < |vs|
    ensures var first := Round1(vs, values, pe);
      var r := Round2(first, |vs|, pe);
      && (!vs[i].isExpression && vs[i].id in values ==>
            r[i] == Refresh(vs[i], ReadingValue(values[vs[i].id], vs[i].divider, pe), pe))
      && (!vs[i].isExpression && vs[i].id !in values ==> r[i] == vs[i])
      && (vs[i].isExpression ==>
            r[i] == Refresh(vs[i], ExprValue(pe.evaluate(vs[i], Round2(first, i, pe)), vs[i].divider, pe), pe))
  {
    var first := Round1(vs, values, pe);
    Round2Step(first, i, pe);
    Round2Seen(first, i + 1, pe, i);
    Round2Seen(first, i, pe, i);
  }

  /** The `i`th step touches position `i` only, and only for an expression. */
  lemma Round2Step(vs: seq<Varbind>, i: nat, pe: PassEnv)
    requires i < |vs|
    ensures var prior := Round2(vs, i, pe);
      Round2(vs, i + 1, pe)[i]
        == if vs[i].isExpression then Refresh(vs[i], ExprValue(pe.evaluate(vs[i], prior), vs[i].divider, pe), pe) else vs[i]
  {
    Round2Seen(vs, i, pe, i);
  }

  // ------------------------------------------------ writing the metrics back

  /** The parameters of `update varbinds set value = ?, prev_value = ?, status = ? where id = ?`. */
  datatype MetricWrite = MetricWrite(value: JsValue, prevValue: JsValue, status: int, id: int)

  /** A metric is written back when it is kept and its value (by `!=`) or its status moved. */
  predicate Moved(v: Varbind, env: Builtins) {
    !v.isTemporary && (!LooseEq(v.value, v.prevValue, env) || v.status != v.prevStatus)
  }

  function WriteOf(v: Varbind): MetricWrite {
    MetricWrite(v.value, v.prevValue, v.status, v.id)
  }

  /** The writes of the `filter(…).forEach(…)`, in list order. */
  function Writes(vs: seq<Varbind>, env: Builtins): seq<MetricWrite> {
    if vs == [] then []
    else
      var prior := Writes(vs[..|vs| - 1], env);
      if Moved(vs[|vs| - 1], env) then prior + [WriteOf(vs[|vs| - 1])] else prior
  }

  /** A write is issued exactly for each metric that moved, and carries that metric's values. */
  lemma {:induction false} WritesSpec(vs: seq<Varbind>, env: Builtins, w: MetricWrite)
    ensures w in Writes(vs, env) <==> exists i :: 0 <= i < |vs| && Moved(vs[i], env) && w == WriteOf(vs[i])
    ensures |Writes(vs, env)| <= |vs|
  {
    if vs != [] {
      var init := vs[..|vs| - 1];
      WritesSpec(init, env, w);
      if w in Writes(vs, env) && w !in Writes(init, env) {
        assert Moved(vs[|vs| - 1], env) && w == WriteOf(vs[|vs| - 1]);
      }
      if exists i :: 0 <= i < |vs| && Moved(vs[i], env) && w == WriteOf(vs[i]) {
        var i :| 0 <= i < |vs| && Moved(vs[i], env) && w == WriteOf(vs[i]);
        if i < |vs| - 1 {
          assert init[i] == vs[i];
        }
      }
    }
  }

  // ------------------------------------------------ the device's status

  /** `errors.every((e) => e instanceof Error)`: true as well when no protocol was asked. */
  function AllFailed(errors: seq<CallError>): (r: bool)
    ensures errors == [] ==> r
    ensures r <==> forall i :: 0 <= i < |errors| ==> errors[i].ErrorObject?
  {
    if errors == [] then true else errors[0].ErrorObject? && AllFailed(errors[1..])
  }

  /**
   * After the values: the device is alive unless every call failed; on
   * failure the status is forced to `force_status_to`, otherwise the device
   * rescores itself. `changed` is the `prev_status != status` test that
   * fires `status-changed`.
   */
  method Settle(d: Device, errors: seq<CallError>) returns (failed: bool, changed: bool)
    modifies d`status, d`prevStatus, d`alive
    ensures failed == AllFailed(errors) && d.alive == !failed
    ensures d.prevStatus == Some(old(d.status))
    ensures failed ==> d.status == d.attrs.forceStatusTo
    ensures !failed ==> d.status == if d.IsStatus() then MaxStatus(d.varbinds) else old(d.status)
    ensures changed <==> d.status != old(d.status)
  {
    failed := true;
    for i := 0 to |errors|
      invariant failed <==> forall j :: 0 <= j < i ==> errors[j].ErrorObject?
    {
      failed := failed && errors[i].ErrorObject?;
    }
    d.alive := !failed;
    if failed {
      d.prevStatus := Some(d.status);
      d.status := d.attrs.forceStatusTo;
    } else {
      d.UpdateStatus();
    }
    changed := d.prevStatus != Some(d.status);
  }

  /** The `status-changed` reason after a failure: the error messages joined by `;`. */
  function FailureReason(errors: seq<CallError>, env: Builtins): string {
    Join(Messages(errors, env), ';')
  }

  function Messages(errors: seq<CallError>, env: Builtins): seq<string> {
    if errors == [] then [] else Messages(errors[..|errors| - 1], env) + [ToText(MessageOf(errors[|errors| - 1]), env)]
  }

  /** Otherwise: `name: value` of each status-bearing metric at the device's status. */
  function StatusReason(vs: seq<Varbind>, status: int, env: Builtins): string {
    Join(StatusLines(vs, status, env), ';')
  }

  function StatusLines(vs: seq<Varbind>, status: int, env: Builtins): seq<string> {
    if vs == [] then []
    else
      var prior := StatusLines(vs[..|vs| - 1], status, env);
      var v := vs[|vs| - 1];
      if v.isStatus && v.status == status then prior + [v.name + ": " + ToText(v.value, env)] else prior
  }

  // ------------------------------------------------ the history row

  /** A column of `history.device<id>`: `time`, `varbind<id>` or `varbind<id>_status`. */
  datatype HistoryColumn = TimeColumn | ValueColumn(id: int) | StatusColumn(id: int)

  /** The metrics kept in the history table: numeric and not temporary. */
  predicate Numeric(v: Varbind) {
    !v.isTemporary && v.valueType == "number"
  }

  /** `${v.value || null}`. */
  function ValueText(v: JsValue, env: Builtins): string {
    if Truthy(v) then ToText(v, env) else "null"
  }

  /** `${v.status}`. */
  function StatusText(status: int, env: Builtins): string {
    NumberText(Finite(status as real), env)
  }

  /** The columns contributed by the first `k` metrics, after `time`. */
  function HistoryColumns(vs: seq<Varbind>, k: nat): (r: seq<HistoryColumn>)
    requires k <= |vs|
    ensures |r| >= 1
  {
    if k == 0 then [TimeColumn]
    else
      var prior := HistoryColumns(vs, k - 1);
      var v := vs[k - 1];
      if !Numeric(v) then prior
      else if v.status == 0 then prior + [ValueColumn(v.id)]
      else prior + [ValueColumn(v.id), StatusColumn(v.id)]
  }

  /** The parameters contributed by the first `k` metrics, after the time. */
  function HistoryParams(vs: seq<Varbind>, k: nat, time: int, env: Builtins): seq<JsValue>
    requires k <= |vs|
  {
    if k == 0 then [Num(Finite(time as real))]
    else
      var prior := HistoryParams(vs, k - 1, time, env);
      var v := vs[k - 1];
      if !Numeric(v) then prior
      else if v.status == 0 then prior + [Str(ValueText(v.value, env))]
      else prior + [Str(ValueText(v.value, env)), Str(StatusText(v.status, env))]
  }

  /** The `forEach` that builds the history row. */
  method HistoryRow(vs: seq<Varbind>, time: int, env: Builtins) returns (columns: seq<HistoryColumn>, params: seq<JsValue>)
    ensures columns == HistoryColumns(vs, |vs|) && params == HistoryParams(vs, |vs|, time, env)
  {
    columns, params := [TimeColumn], [Num(Finite(time as real))];
    for i := 0 to |vs|
      invariant columns == HistoryColumns(vs, i) && params == HistoryParams(vs, i, time, env)
    {
      var v := vs[i];
      if !Numeric(v) {
        continue;
      }
      columns := columns + [ValueColumn(v.id)];
      params := params + [Str(ValueText(v.value, env))];
      if v.status == 0 {
        continue;
      }
      columns := columns + [StatusColumn(v.id)];
      params := params + [Str(StatusText(v.status, env))];
    }
  }

  /**
   * The row is well formed: one parameter per column, `time` first with the
   * pass's time, and every other column holding the value or the status of a
   * numeric metric with that id.
   */
  lemma {:induction false} HistoryAligned(vs: seq<Varbind>, k: nat, time: int, env: Builtins)
    requires k <= |vs|
    ensures var columns := HistoryColumns(vs, k);
      var params := HistoryParams(vs, k, time, env);
      && |columns| == |params| && columns[0] == TimeColumn && params[0] == Num(Finite(time as real))
      && (forall p :: 1 <= p < |columns| ==> !columns[p].TimeColumn?)
      && (forall p :: 0 <= p < |columns| && columns[p].ValueColumn? ==>
            exists i :: 0 <= i < k && Numeric(vs[i]) && vs[i].id == columns[p].id && params[p] == Str(ValueText(vs[i].value, env)))
      && (forall p :: 0 <= p < |columns| && columns[p].StatusColumn? ==>
            exists i :: 0 <= i < k && Numeric(vs[i]) && vs[i].status != 0 && vs[i].id == columns[p].id
              && params[p] == Str(StatusText(vs[i].status, env)))
  {
    if k > 0 {
      HistoryAligned(vs, k - 1, time, env);
    }
  }

  /** Every numeric metric has its value column, and a status column exactly when its status is set. */
  lemma {:induction false} HistoryCovers(vs: seq<Varbind>, k: nat, i: nat)
    requires i < k <= |vs| && Numeric(vs[i])
    ensures ValueColumn(vs[i].id) in HistoryColumns(vs, k)
    ensures vs[i].status != 0 ==> StatusColumn(vs[i].id) in HistoryColumns(vs, k)
  {
    if i < k - 1 {
      HistoryCovers(vs, k - 1, i);
    }
  }

  /** `s.repeat(n)`. */
  function Repeat(s: string, n: nat): string {
    if n == 0 then "" else Repeat(s, n - 1) + s
  }

  /** `'?, '.repeat(n - 1) + '?'`: the placeholder list of the insert. */
  function Placeholders(n: nat): string
    requires n >= 1
  {
    Repeat("?, ", n - 1) + "?"
  }

  /** The insert has one placeholder per column. */
  lemma PlaceholdersCount(n: nat)
    requires n >= 1
    ensures Count(Placeholders(n), '?') == n
  {
    RepeatCount(n - 1);
    CountConcat(Repeat("?, ", n - 1), "?", '?');
    assert "?"[..0] == "";
  }

  lemma {:induction false} RepeatCount(n: nat)
    ensures Count(Repeat("?, ", n), '?') == n
  {
    if n > 0 {
      RepeatCount(n - 1);
      CountConcat(Repeat("?, ", n - 1), "?, ", '?');
      assert "?, "[..2] == "?," && "?,"[..1] == "?" && "?"[..0] == "";
    }
  }

  // ------------------------------------------------ the change rows

  /** A row of the queries on `changes.device<id>`: close the open period, open a new one. */
  datatype Change =
    | CloseChange(endDate: int, id: int)
    | OpenChange(id: int, prevValue: JsValue, value: JsValue, status: int, startDate: int)

  /** `v.value - v.prev_value > 0` for two numbers that are not `NaN`. */
  predicate Rises(a: Number, b: Number) {
    (a.Finite? && b.Finite? && a.x > b.x) || (a.PosInf? && !b.PosInf?) || (b.NegInf? && !a.NegInf?)
  }

  /** A duration that only grew is not recorded as a change. */
  predicate Grew(v: Varbind, env: Builtins) {
    v.valueType == "duration" && !IsNaN(v.prevValue, env) && !IsNaN(v.value, env)
    && Rises(ToNumber(v.value, env), ToNumber(v.prevValue, env))
  }

  /** A kept metric of another type whose value moved, and not by a duration growing. */
  predicate Recorded(v: Varbind, env: Builtins) {
    !v.isTemporary && v.valueType != "number" && !LooseEq(v.prevValue, v.value, env) && !Grew(v, env)
  }

  /** The new period: the previous value only for a duration, and `null` for a falsy value. */
  function OpenOf(v: Varbind, time: int): Change {
    OpenChange(v.id, if v.valueType == "duration" then v.prevValue else Null,
               if Truthy(v.value) then v.value else Null, v.status, time)
  }

  function ChangeRows(vs: seq<Varbind>, k: nat, time: int, env: Builtins): seq<Change>
    requires k <= |vs|
  {
    if k == 0 then []
    else
      var prior := ChangeRows(vs, k - 1, time, env);
      if Recorded(vs[k - 1], env) then prior + [CloseChange(time - 1, vs[k - 1].id), OpenOf(vs[k - 1], time)] else prior
  }

  /** The `filter(…).forEach(…)` that queues the change queries. */
  method ChangeQueries(vs: seq<Varbind>, time: int, env: Builtins) returns (rows: seq<Change>)
    ensures rows == ChangeRows(vs, |vs|, time, env)
  {
    rows := [];
    for i := 0 to |vs|
      invariant rows == ChangeRows(vs, i, time, env)
    {
      var v := vs[i];
      if v.isTemporary || v.valueType == "number" || LooseEq(v.prevValue, v.value, env) {
        continue;
      }
      if v.valueType == "duration" && !IsNaN(v.prevValue, env) && !IsNaN(v.value, env) {
        var a, b := ToNumber(v.value, env), ToNumber(v.prevValue, env);
        var grew := match (a, b)
          case (Finite(x), Finite(y)) => x - y > 0.0
          case (PosInf, _) => !b.PosInf?
          case (_, NegInf) => !a.NegInf?
          case _ => false;
        if grew {
          continue;
        }
      }
      rows := rows + [CloseChange(time - 1, v.id), OpenOf(v, time)];
    }
  }

  /**
   * The rows come in pairs, one pair per recorded metric and for no other:
   * the old period of the metric is closed one millisecond before the new
   * one opens.
   */
  lemma {:induction false} ChangePairs(vs: seq<Varbind>, k: nat, time: int, env: Builtins)
    requires k <= |vs|
    ensures var rows := ChangeRows(vs, k, time, env);
      && |rows| % 2 == 0
      && (forall j :: 0 <= j && 2 * j < |rows| ==>
            exists i :: (0 <= i < k && Recorded(vs[i], env)
              && rows[2 * j] == CloseChange(time - 1, vs[i].id) && rows[2 * j + 1] == OpenOf(vs[i], time)))
  {
    if k > 0 {
      ChangePairs(vs, k - 1, time, env);
      var prior := ChangeRows(vs, k - 1, time, env);
      var rows := ChangeRows(vs, k, time, env);
      assert |rows| == |prior| || (Recorded(vs[k - 1], env) && |rows| == |prior| + 2);
      forall j | 0 <= j && 2 * j < |rows|
        ensures exists i :: (0 <= i < k && Recorded(vs[i], env)
          && rows[2 * j] == CloseChange(time - 1, vs[i].id) && rows[2 * j + 1] == OpenOf(vs[i], time))
      {
        if 2 * j < |prior| {
          var i :| (0 <= i < k - 1 && Recorded(vs[i], env)
            && prior[2 * j] == CloseChange(time - 1, vs[i].id) && prior[2 * j + 1] == OpenOf(vs[i], time));
          assert rows[2 * j] == prior[2 * j] && rows[2 * j + 1] == prior[2 * j + 1];
        } else {
          assert Recorded(vs[k - 1], env) && rows == prior + [CloseChange(time - 1, vs[k - 1].id), OpenOf(vs[k - 1], time)];
          assert 2 * j == |prior|;
          assert rows[2 * j] == CloseChange(time - 1, vs[k - 1].id) && rows[2 * j + 1] == OpenOf(vs[k - 1], time);
        }
      }
    }
  }

  /** Every recorded metric opens a new period. */
  lemma {:induction false} ChangeCovers(vs: seq<Varbind>, k: nat, time: int, env: Builtins, i: nat)
    requires i < k <= |vs| && Recorded(vs[i], env)
    ensures CloseChange(time - 1, vs[i].id) in ChangeRows(vs, k, time, env)
    ensures OpenOf(vs[i], time) in ChangeRows(vs, k, time, env)
  {
    if i < k - 1 {
      ChangeCovers(vs, k - 1, time, env, i);
    }
  }

  // ------------------------------------------------ the whole pass

  /** The events a pass emits, each with the pass's time. */
  datatype PollEvent = ValuesUpdated(time: int) | StatusUpdated(time: int) | StatusChanged(time: int, reason: string)

  /** What a pass hands to the database and the scheduler. */
  datatype PassOutcome = PassOutcome(
    writes: seq<MetricWrite>,
    events: seq<PollEvent>,
    columns: seq<HistoryColumn>,
    params: seq<JsValue>,
    changes: seq<Change>,
    nextDelay: int)

  /**
   * The device settles its liveness and status after the values, and the
   * pass reports `values-updated`, `status-updated` and, when the status
   * moved, `status-changed` with the failures' messages or the status-bearing
   * metrics at the new status.
   */
  method Report(d: Device, errors: seq<CallError>, pe: PassEnv) returns (events: seq<PollEvent>)
    modifies d`status, d`prevStatus, d`alive
    ensures d.alive == !AllFailed(errors)
    ensures d.prevStatus == Some(old(d.status))
    ensures d.status == (if AllFailed(errors) then d.attrs.forceStatusTo
                         else if d.IsStatus() then MaxStatus(d.varbinds) else old(d.status))
    ensures events == [ValuesUpdated(pe.time), StatusUpdated(pe.time)]
      + (if d.status == old(d.status) then []
         else if AllFailed(errors) then [StatusChanged(pe.time, FailureReason(errors, pe.env))]
         else [StatusChanged(pe.time, StatusReason(d.varbinds, d.status, pe.env))])
  {
    var failed, changed := Settle(d, errors);
    events := [ValuesUpdated(pe.time), StatusUpdated(pe.time)];
    if changed {
      var reason := if failed then FailureReason(errors, pe.env) else StatusReason(d.varbinds, d.status, pe.env);
      events := events + [StatusChanged(pe.time, reason)];
    }
  }

  /** `device.period * 1000 || 60000`. */
  function NextDelay(period: int): (delay: int)
    ensures delay != 0
    ensures period != 0 ==> delay == period * 1000
    ensures period == 0 ==> delay == 60000
  {
    if period * 1000 != 0 then period * 1000 else 60000
  }

  /**
   * The state a pass leaves and the outcome it hands back, from the device's
   * attributes, metric list and status before it: the protocols used are
   * stamped with the device's address, the metrics are refreshed, the device
   * settles its liveness and status, and the writes, events, history row,
   * change rows and the next delay follow from the refreshed list.
   */
  ghost predicate Passed(attrs0: Attributes, vs0: seq<Varbind>, status0: int, d: Device, out: PassOutcome,
                         plugins: seq<string>, respond: Collector, pe: PassEnv)
    reads d
  {
    var c := CollectUpTo(plugins, |plugins|, vs0, attrs0.ip, attrs0.protocols, respond);
    && d.attrs == attrs0.(protocols := c.protocols)
    && d.varbinds == Round2(Round1(vs0, c.values, pe), |vs0|, pe)
    && d.alive == !AllFailed(c.errors)
    && d.prevStatus == Some(status0)
    && d.status == (if AllFailed(c.errors) then d.attrs.forceStatusTo
                    else if d.IsStatus() then MaxStatus(d.varbinds) else status0)
    && out.events == [ValuesUpdated(pe.time), StatusUpdated(pe.time)]
         + (if d.status == status0 then []
            else if AllFailed(c.errors) then [StatusChanged(pe.time, FailureReason(c.errors, pe.env))]
            else [StatusChanged(pe.time, StatusReason(d.varbinds, d.status, pe.env))])
    && out.writes == Writes(d.varbinds, pe.env)
    && out.columns == HistoryColumns(d.varbinds, |d.varbinds|)
    && out.params == HistoryParams(d.varbinds, |d.varbinds|, pe.time, pe.env)
    && out.changes == ChangeRows(d.varbinds, |d.varbinds|, pe.time, pe.env)
    && out.nextDelay == NextDelay(d.attrs.period)
  }

  /** One pass of `polling()` after the collection, given the collectors' answers. */
  method PollPass(d: Device, plugins: seq<string>, respond: Collector, pe: PassEnv) returns (out: PassOutcome)
    modifies d`attrs, d`varbinds, d`status, d`prevStatus, d`alive
    ensures Passed(old(d.attrs), old(d.varbinds), old(d.status), d, out, plugins, respond, pe)
  {
    var values, errors, protocols := Collect(plugins, d.varbinds, d.attrs.ip, d.attrs.protocols, respond);
    d.attrs := d.attrs.(protocols := protocols);
    var refreshed := RefreshAll(d.varbinds, values, pe);
    d.varbinds := refreshed;
    var writes := Writes(refreshed, pe.env);
    var events := Report(d, errors, pe);
    var columns, params := HistoryRow(refreshed, pe.time, pe.env);
    var changes := ChangeQueries(refreshed, pe.time, pe.env);
    out := PassOutcome(writes, events, columns, params, changes, NextDelay(d.attrs.period));
  }
}
