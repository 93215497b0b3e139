# cicada device model in Dafny

This project models the in-memory logic of the device model in cicada,
`models/device.js`. A device owns a list of metrics (varbinds). It is polled
on a per-device timer through protocol collectors. Each poll pass:

- normalises the readings through the metric's divider (`applyDivider`);
- rescores the device's status;
- queues history and change rows for the database.

Devices are saved and deleted in database transactions, and the registry
answers queries over all cached devices (`getIpList`, `getTagList`, the check
back-fill of `cacheAll`, `updateLatencies`, `updateParent`).

Modules, one per file:

- `Js` (js.dfy): the JavaScript values the model handles, and the coercions it relies on (`isNaN`, truthiness, `+ ''`, loose `==`).
  - Library behaviour that cannot be seen is a `Builtins` record passed in: `Number(s)`, `parseFloat`, printing a number, and the `RegExp` engine.
- `Seqs` (seqs.dfy): `indexOf`, the index-filter de-duplication, `trim`, `split`, `join`, `replace` and counting matches.
- `Devices` (device.dfy): the `Device` class.
  - Its fields: the attributes `setAttributes` writes, the metric list, `status`, `prev_status`, `alive` and `latency`.
  - Its operations: `setAttributes`, `is_status` and `updateStatus`.
- `Normaliser` (normaliser.dfy): `applyDivider`.
  - The source's treatment of a zero reading is the `AsWritten` mode, and the intended one is `Intended` (see Findings).
- `Registry` (registry.dfy): `getIpList` and the back-fill of metric rows from their owning checks.
- `Tags` (tags.dfy): `getTagList`, as its five passes over a dictionary.
- `Latency` (latency.dfy): `updateLatencies`.
  - The undeclared `device` of line 82 is the `AsWritten` mode, and the intended reading is `Intended` (see Findings).
- `Topology` (topology.dfy): parent selection in `updateParent`.
- `Poll` (poll.dfy): one poll pass after the timer fires.
  - The protocol calls, the distribution of results and errors, the two-round metric refresh and the write-back filter.
  - The all-protocols-failed rule, the status events, and the history and change rows.
  - The next delay.
- `Scheduling` (scheduler.dfy): the `timers` table next to the runtime's queue of pending timeouts, and `polling(delay)`.
- `Persistence` (store.dfy): the `save` and `delete` transactions over a snapshot store. A failing statement rolls the store back to its state before the transaction.

Inputs the model cannot compute are parameters:

- the collectors' answers (`Collector`);
- the clock's time;
- the expression evaluator and each metric's own `updateStatus`;
- the outcome of `JSON.parse`;
- the route from `nmap.route`;
- which database statement fails.

## Model

| member | source | states |
|---|---|---|
| Js.ConversionsInverse | models/device.js:580-584 | The Fahrenheit-to-Celsius and Celsius-to-Fahrenheit conversions undo each other on every number, infinities and NaN included |
| Js.RoundCentsSpec | models/device.js:586-587 | Rounding to two decimals gives a value with whole cents, within half a cent of the input |
| Seqs.IndexOf | models/device.js:55 | `indexOf` is -1 exactly when the element is absent; otherwise it is a position holding the element, with no earlier one |
| Seqs.Dedup | models/device.js:55 | De-duplication leaves no repeats, keeps exactly the input's elements, and never lengthens |
| Seqs.DedupIsIndexFilter | models/device.js:55 | The source's `filter((e, idx, r) => r.indexOf(e) == idx)` equals the recursive de-duplication on every prefix |
| Seqs.DedupOrder | models/device.js:55 | The de-duplicated list keeps the order of first occurrences |
| Seqs.DedupOfNoDups | models/device.js:207 | A list without repeats is its own de-duplication |
| Seqs.DedupIdempotent | models/device.js:117 | De-duplicating twice is de-duplicating once |
| Seqs.TrimStartSpec | models/device.js:190 | The start trim removes exactly the leading white space |
| Seqs.TrimEndSpec | models/device.js:190 | The end trim removes exactly the trailing white space |
| Seqs.TrimSpec | models/device.js:190 | `trim` gives the slice from the first to the last non-space character, and everything cut off is white space |
| Seqs.TrimTrimmed | models/device.js:190 | A trimmed string is its own trim |
| Seqs.TrimIsTrimmed | models/device.js:190 | The trim of any string is trimmed |
| Seqs.Split | models/device.js:207 | `split` on one character yields at least one piece, and no piece holds the separator |
| Seqs.JoinSplit | models/device.js:207-208 | Joining the pieces of a split gives the string back |
| Seqs.SplitJoin | models/device.js:207-208 | Splitting a join of separator-free parts gives the parts back |
| Seqs.JoinEmpty | models/device.js:208 | A join is empty exactly for no parts or a single empty part |
| Seqs.CountSpec | models/device.js:541-542 | The match count is at most the length, and zero exactly when the character is absent |
| Seqs.ReplaceFirstSpec | models/device.js:544-547 | `replace` with a one-character pattern: without that character nothing changes; otherwise the text before its first occurrence is kept, the replacement takes that one character's place, the length grows by the replacement's length less one, and every later occurrence stays (the count drops by one, plus the replacement's own) |
| Seqs.CountAround | models/device.js:541-542 | The count of a character splits around one of its occurrences: the part before, that one, and the part after |
| Seqs.CountConcat | models/device.js:541-542 | The match count of a concatenation is the sum of the parts' counts |
| Devices.TrimAll | models/device.js:207 | Trimming the pieces keeps their number and trims each piece in place |
| Devices.TagListSpec | models/device.js:207 | The tag list has no repeats; each tag is trimmed and holds no `;`; every piece of the tag string appears trimmed in it |
| Devices.TagsRoundTrip | models/device.js:207-208 | Normalising the joined tag list gives the list back, except the list `['']`; the joined string is always a fixpoint |
| Devices.NormalisedListIsFixpoint | models/device.js:207-208 | A repeat-free list of trimmed, `;`-free tags re-normalises to itself |
| Devices.MaxStatusSpec | models/device.js:218 | The status reduction is at least 0 and at least every metric's status, and is 0 or one of those statuses |
| Devices.IngestSpec | models/device.js:182-211 | Ingestion covers the following: a set template flag stays set; the timeout is the parsed one or 3, never 0; `expression` is dropped and every remaining protocol is stamped with the timeout; a parse failure gives `{}`; `json_varbind_list` defaults to `[]`; name and ip are trimmed; the tag string is a fixpoint |
| Devices.IngestFixpoint | models/device.js:182-211 | Ingesting again the row a device's own attributes make leaves the attributes as they are (the texts are already trimmed, the timeout non-zero, the protocols stamped, the tag string normal), except that a tag list `['']` comes back empty |
| Devices.StampedAgain | models/device.js:194-197 | Stamping protocols already stamped with the same timeout changes nothing |
| Devices.StampTimeouts | models/device.js:195-197 | The loop drops `expression` and stamps every other protocol with the timeout, leaving its other settings alone |
| Devices.Device.constructor | models/device.js:175-180 | A new device has no metrics, status 0 and no previous status |
| Devices.Device.SetAttributes | models/device.js:182-212 | The device's attributes become the ingestion of the row, under its old template flag |
| Devices.Device.UpdateStatus | models/device.js:216-220 | The old status becomes `prev_status`; with a status-bearing metric the status is the metrics' maximum (at least 0), otherwise it is unchanged |
| Normaliser.Prepare | models/device.js:529-548 | Booleans and `ERR` texts are final and unchanged; only texts are retried; what goes on is never a boolean or undefined, and a numeric value goes on unchanged |
| Normaliser.RegexDirectiveStep | models/device.js:551-567 | The directive step ends in text, or hands a non-empty captured group back with the divider's number, only when the divider holds `r` |
| Normaliser.DirectiveOutcomes | models/device.js:551-567 | For a non-numeric text and a non-numeric divider: without `r` the text comes back unchanged; a bad pattern gives its error message; no match, no group or an empty group gives `''`; a non-empty group is normalised again with the number before `r` as divider |
| Normaliser.Scale | models/device.js:573-589 | The arithmetic branch always yields a number |
| Normaliser.KeepsBooleansAndErrors | models/device.js:530-538 | Booleans and non-numeric texts starting with `ERR` are returned unchanged |
| Normaliser.NoDividerKeepsNumber | models/device.js:570-571 | A number is returned unchanged when the divider is falsy |
| Normaliser.DecimalComma | models/device.js:543-544 | A non-numeric text with one comma and no period is normalised as its `parseFloat` with the comma read as a decimal point |
| Normaliser.ThousandsComma | models/device.js:546-547 | A non-numeric text with one period and some commas is normalised as its `parseFloat` with the first comma removed |
| Normaliser.FirstCommaRemoved | models/device.js:547 | `replace(',', '')` removes exactly one comma, so a text with two commas still holds one |
| Normaliser.NumericDivider | models/device.js:573-577 | A purely numeric divider yields the plain quotient, a zero reading included, in either reading of the source |
| Normaliser.SuffixDivider | models/device.js:579-589 | With a suffixed divider, `C` yields the Celsius conversion of the quotient, `F` the Fahrenheit conversion, `R` the quotient rounded to cents, and any other suffix the quotient itself |
| Normaliser.RoundedDivider | models/device.js:586-587 | With suffix `R` the result has whole cents and lies within half a cent of the quotient |
| Normaliser.TextUsesDirective | models/device.js:551-567 | A non-numeric text with a non-numeric divider gets the directive step's final value, or its captured group normalised again |
| Normaliser.CelsiusRoundTrip | models/device.js:570-584 | In the corrected reading, converting any finite reading to Celsius and back gives it back, 0 and 32 included |
| Normaliser.NumberAndTextAgree | models/device.js:570-577 | In the corrected reading, a number and a numeric text for it normalise alike under every present divider |
| Normaliser.ZeroSkipsConversion | models/device.js:570-571 | As written, 0 with a Celsius divider stays 0 while the text "0" becomes -160/9, and 32 does not survive the Celsius round trip |
| Registry.NonEmpty | models/device.js:54 | The filter keeps exactly the non-empty addresses |
| Registry.SelectedSpec | models/device.js:52 | Each device contributes its address when it is selected (all devices, or only pinged ones), otherwise '' |
| Registry.IpListMembers | models/device.js:50-56 | An address is on the list exactly when it is non-empty and is the trimmed address of a selected device |
| Registry.ListedIsSelected | models/device.js:52-53 | The trimmed address of a selected device is among the trimmed selections |
| Registry.SelectedIsListed | models/device.js:52-53 | A non-empty trimmed selection is the trimmed address of a selected device |
| Registry.IpListTrimmed | models/device.js:53 | Every address on the list is trimmed |
| Registry.IpListOrder | models/device.js:55 | The list has no repeats and keeps the order of first occurrence |
| Registry.CheckIndexKeys | models/device.js:34 | Exactly the ids of the check rows are filed |
| Registry.CheckIndexLastWins | models/device.js:34 | Each id is filed under the last check row that carries it |
| Registry.BackfillColumns | models/device.js:36 | The back-filled columns never include `id` or `updated` |
| Registry.BackfilledSpec | models/device.js:37-39 | For a row with an owning check, each listed column the check defines is copied; other columns, `id` and `updated` are kept; rows without an owning check are unchanged |
| Registry.Backfill | models/device.js:36-40 | The in-place loop back-fills every row of the array from the check index and the first row's columns |
| Registry.IndexChecks | models/device.js:34 | The indexing loop builds the check index |
| Latency.LastWithIp | models/device.js:63 | The position of the last probe row with an address, or -1 exactly when there is none |
| Latency.ByIpSpec | models/device.js:62-63 | The probe index files each address under its last row |
| Latency.ProbeForSpec | models/device.js:68 | A device finds a row exactly when some row has its address or the row at its position names it in `for`; the address match wins |
| Latency.DownDeviceRaises | models/device.js:82 | As written, a down device that takes its status from the ping raises a ReferenceError, and an alive one gets status 1 |
| Latency.IntendedPingStatus | models/device.js:82 | In the corrected reading, the ping status is 1 when alive, otherwise `force_status_to` or 3, and never 0 |
| Latency.ApplyProbe | models/device.js:69-86 | A probed device takes `alive` and `latency`; without status-bearing metrics, `prev_status` takes the old status and the status becomes 1 or the down status; `status-changed` fires when there was a previous status and it moved; as written, the down case fails |
| Latency.Columns | models/device.js:65-75 | The latency row has one column more than there are matched devices |
| Latency.Cells | models/device.js:66-77 | The latency row has one value more than there are matched devices |
| Latency.RowAppend | models/device.js:75-77 | Matching one more device appends its column and its latency value |
| Latency.RowShape | models/device.js:65-77 | The row starts with `time` and the time, followed by `device<id>` and the latency of each matched device in device order |
| Latency.WalkStep | models/device.js:66-85 | One more device of the walk: a pinged device advances the ping position, a matched one adds its row entry, and a matched down one without status-bearing metrics raises |
| Latency.RaisesLater | models/device.js:82 | Once the walk has met a raising device, every longer walk has met it |
| Latency.Visit | models/device.js:66-85 | The loop body for one device: only a pinged device looks up its probe row; it raises exactly when, as written, the matched row is down and the device has no status-bearing metrics |
| Latency.UpdateLatencies | models/device.js:58-89 | No probe rows means nothing to do; an inserted row is the matched devices' row; in the corrected reading a row is always inserted; as written the ReferenceError escapes exactly when some matched pinged device is down and has no status-bearing metrics, and otherwise the row is inserted |
| Topology.ChooseParent | models/device.js:263-273 | The choice is none exactly when no device is on the route. Otherwise it is the best candidate (candidates being the first device on the route and every eligible device): its hop, the chosen device's route position, is at least every candidate's, and no candidate with the same hop comes before it |
| Topology.BestUnique | models/device.js:263-273 | There is at most one best candidate, so the choice is fully determined |
| Topology.UpdateParent | models/device.js:255-282 | A device without an address loses its parent. Otherwise a failed write changes nothing; a successful one sets `parent_id` to the choice, which is none exactly when no device is on the route and otherwise the id of the best candidate |
| Tags.MetricTagsSpec | models/device.js:102 | A metric tag is contributed exactly when a numeric, non-temporary metric carries it |
| Tags.MarkTagsSpec | models/device.js:96 | Marking a device's tags gives each of them the list `['latency']` and leaves other keys alone |
| Tags.MarkDevicesSpec | models/device.js:94-96 | After the first pass, the keys are `All` and the tags of pinged devices, each holding `latency` exactly when a pinged device carries it |
| Tags.FeedTagsSpec | models/device.js:98-103 | Each tag not starting with `$` is created when missing and receives the metric tags |
| Tags.FeedDeviceSpec | models/device.js:97-106 | One device feeds its own tags, or `All` when it has none |
| Tags.FeedDevicesSpec | models/device.js:97-107 | After the second pass, each key holds what it had plus its devices' metric tags, and `All` holds the untagged devices' metric tags |
| Tags.FedSpec | models/device.js:94-107 | After the first two passes, a key is present when it is `All`, pinged or fed, and holds what it gathers |
| Tags.KeptSpec | models/device.js:109-111 | After the third pass, the keys besides `All` are exactly those that gather something |
| Tags.AllGathers | models/device.js:113-114 | Some key holds a tag exactly when an untagged device's metric carries it or some key gathers it |
| Tags.DedupSameElems | models/device.js:116-117 | De-duplication keeps the set of elements |
| Tags.AppendMetricTags | models/device.js:102 | The push loop appends the counted metrics' tags in order |
| Tags.MarkPinged | models/device.js:94-96 | The first pass builds the marked dictionary |
| Tags.FeedOne | models/device.js:97-106 | The second pass for one device |
| Tags.FeedPass | models/device.js:97-107 | The second pass over all devices |
| Tags.DropEmpty | models/device.js:109-111 | Every key except `All` with an empty list is deleted, and the other lists are unchanged |
| Tags.CollectIntoAll | models/device.js:113-114 | `All` afterwards holds exactly the elements of every list, its own included; the other keys are unchanged |
| Tags.DedupLists | models/device.js:116-117 | Every list is de-duplicated, and the keys are unchanged |
| Tags.TagList | models/device.js:93-120 | `All` is always a key. Another key is present exactly when it gathers something, and then holds exactly that. Every list is repeat-free. `All` holds the untagged devices' metric tags and everything gathered, so it contains every list. A `$` tag holds at most `latency` |
| Tags.Containment | models/device.js:113-117 | Every list lies inside `All`, and a `$` tag holds at most `latency` |
| Tags.KeptFacts | models/device.js:109-111 | The third pass keeps exactly `All` and the keys that gather something, each holding what it gathers |
| Tags.AllFacts | models/device.js:113-117 | After the last two passes, `All` holds the untagged devices' metric tags and whatever any key gathers |
| Tags.ListFacts | models/device.js:109-117 | After the last two passes, every other key holds, once each, exactly what it gathers |
| Poll.OfProtocol | models/device.js:303 | A protocol's batch holds only the device's metrics of that protocol, and is no longer than the list |
| Poll.OfProtocolMembers | models/device.js:303 | A metric is in the batch exactly when it is in the list and of that protocol |
| Poll.OfProtocolConcat | models/device.js:303 | The filter keeps the list's order: the batch of a concatenation is the concatenation of the batches |
| Poll.AddressesOf | models/device.js:304 | There is one address per metric of the batch, the metric's own, in the batch's order |
| Poll.DistributeSpec | models/device.js:312 | A failed call gives every metric of its batch the error with its message, and other metrics' entries are kept |
| Poll.DistributeReadings | models/device.js:312 | With distinct ids and no failure, metric `i` of a batch receives `res[i]`, and no entry past the end of `res` |
| Poll.KeysKept | models/device.js:302-309 | The device's protocol settings keep their names through the pass |
| Poll.AskOneErrors | models/device.js:306-311 | A step pushes an error entry exactly when it asks its protocol |
| Poll.ErrorsPerCall | models/device.js:301-314 | The `errors` array has one entry per protocol asked, and a protocol is asked only when it has settings and metrics |
| Poll.StampsAddress | models/device.js:309 | Every protocol asked has its settings stamped with the device's address; the others are untouched |
| Poll.AskOneProtocols | models/device.js:306-309 | One step stamps the address on the settings of the protocol it asks, and changes no other settings |
| Poll.Spread | models/device.js:312 | The inner loop distributes one response over its batch |
| Poll.Collect | models/device.js:299-315 | The collection loop asks each loaded protocol in order, and fills `values`, `errors` and the settings as the step function describes |
| Poll.Refresh | models/device.js:319-333 | An updated metric takes the new value, moves the old value and time to `prev_value` and `prev_value_time`, is stamped with the pass's time, and keeps its identity and kind |
| Poll.Round2 | models/device.js:336 | The second round keeps the list's length |
| Poll.Round2Seen | models/device.js:336 | While expressions are updated, each earlier position already holds its final value and the later ones are as the first round left them |
| Poll.Round2Later | models/device.js:336 | A position is not touched again after its step |
| Poll.Round2Step | models/device.js:336 | Step `i` changes position `i` only for an expression, evaluated against the list as it stands |
| Poll.RefreshAll | models/device.js:335-336 | Metrics that received a result and are not expressions are updated first, then every expression |
| Poll.RefreshOutcome | models/device.js:320-322 | A metric that received a result is updated from `'ERR: ' + value` or its divided value. A non-expression without a result is unchanged. An expression is updated from its evaluation against the list as the earlier updates left it |
| Poll.WritesSpec | models/device.js:338-344 | A write is issued exactly for each non-temporary metric whose value or status moved, and carries its value, previous value, status and id |
| Poll.AllFailed | models/device.js:348 | The device counts as failed exactly when every pushed error is an `Error`, which holds vacuously when nothing was asked |
| Poll.Settle | models/device.js:348-360 | The device is alive unless all calls failed. On failure the old status becomes `prev_status` and the status becomes `force_status_to`; otherwise the device rescores itself. `changed` holds exactly when the status moved |
| Poll.HistoryColumns | models/device.js:371 | The history row always has the `time` column |
| Poll.HistoryRow | models/device.js:371-383 | The loop builds the history columns and parameters |
| Poll.HistoryAligned | models/device.js:371-383 | The row has one parameter per column, `time` first with the pass's time, and each other column is the value (`value \|\| null` as text) or the status of a numeric, non-temporary metric with that id |
| Poll.HistoryCovers | models/device.js:373-383 | Every numeric, non-temporary metric has its value column, and a status column when its status is non-zero |
| Poll.PlaceholdersCount | models/device.js:385 | The insert's placeholder list has one `?` per column |
| Poll.RepeatCount | models/device.js:385 | `'?, '.repeat(n)` holds `n` question marks |
| Poll.ChangeQueries | models/device.js:389-400 | The loop builds the change rows |
| Poll.ChangePairs | models/device.js:389-400 | The change rows come in close/open pairs, one pair per recorded metric. A metric is recorded when it is non-temporary, not a number, its value moved, and it is not a duration whose value grew. The close ends at `time - 1` |
| Poll.ChangeCovers | models/device.js:389-400 | Every recorded metric closes its old period and opens a new one |
| Poll.Report | models/device.js:346-365 | The device settles. `values-updated` and `status-updated` are emitted, and `status-changed` is emitted exactly when the status moved, with the errors' messages or the status-bearing metrics at the new status |
| Poll.NextDelay | models/device.js:408 | The re-arm delay is `period * 1000`, or 60000 when that is 0, and is never 0 |
| Poll.PollPass | models/device.js:299-408 | Across a whole pass (the predicate `Passed`): the used protocols' settings are stamped with the address; the metrics are refreshed in the two rounds; liveness, status and events follow the failure rule; the writes, the history row, the change rows and the next delay are those of the refreshed metrics |
| Scheduling.Scheduler.constructor | models/device.js:13 | The timer table starts empty |
| Scheduling.Scheduler.AtMostOne | models/device.js:13 | A device has exactly one pending timeout when it has a timer entry, and none otherwise |
| Scheduling.Scheduler.Cancel | models/device.js:288-291 | A device's entry and its pending timeout are removed, and nothing else changes |
| Scheduling.Scheduler.Arm | models/device.js:297 | A fresh timeout for the device is queued and recorded |
| Scheduling.Scheduler.Rearm | models/device.js:288-297 | The old timeout is cancelled. A device without metrics is left with no timer; otherwise exactly one timer with the delay is armed. Other devices are untouched |
| Scheduling.Scheduler.Polling | models/device.js:285-297 | `polling(delay)`: no metrics means no timer and no pass; a delay re-arms without a pass; without a delay the whole pass runs as `PollPass` states and the device re-arms with `period * 1000 \|\| 60000`. Other devices are untouched |
| Scheduling.Scheduler.Fire | models/device.js:297 | A fired timeout leaves the queue. A device with metrics runs the whole pass as `PollPass` states and re-arms with its period; one without is left as it was, with no timer. Other devices' timers are untouched |
| Persistence.PrepareSpec | models/device.js:462-469 | A prepared metric has `device_id` and `updated` stamped and a truthy name (its own, or `Unnamed`). A new device's metrics have no id; other keys are unchanged |
| Persistence.PrepareAll | models/device.js:462-469 | Every parsed metric is prepared, in order |
| Persistence.Store.UpsertDevice | models/device.js:457 | A new device gets a fresh non-zero id; a known one overwrites its row |
| Persistence.Store.UpsertMetric | models/device.js:477 | A metric with an id overwrites that row and keeps its owning check; one without gets a fresh id |
| Persistence.Store.UpsertAll | models/device.js:475-479 | Every prepared metric has a row of the device stamped with the time, and the last metric with an id holds its columns. Untouched rows are kept |
| Persistence.Store.DropStale | models/device.js:482-496 | Exactly the stale rows (the device's, not written now, no check) are deleted |
| Persistence.Store.Save | models/device.js:443-511 | Failure exactly on a parse or database error, and then the store, status and `prev_status` are unchanged. A statement that fails before the parse (`begin transaction`, the device upsert) is the error reported, even for a list that would not parse, and the device keeps its `json_varbind_list`. Otherwise a list that does not parse is the error, and it is kept too. Once the list parsed, `json_varbind_list` is deleted, even when a later statement fails. On success the device row is written, the device has a non-zero id, its status and `prev_status` are 0, and the metric rows satisfy the saved-metrics property |
| Persistence.Store.MetricsOf | models/device.js:222-226 | The re-read metric list holds every varbind row of the device exactly once, each made from its row, and nothing else |
| Persistence.Store.Delete | models/device.js:413-423 | On success the device's row and all its metrics go; on failure nothing changes |
| Persistence.SavedMetricsHold | models/device.js:462-496 | After a commit, every parsed metric has a row of the device stamped with the save's time; ids of existing devices' metrics are kept; no stale row remains; other rows are kept exactly when not stale |
| Persistence.SaveDevice | models/device.js:501-520 | A committed save re-reads the device's metric list from its varbind rows, then leaves exactly one pending poll 2000 ms out when that list is not empty, and always when the save wrote metrics; a failed save leaves the store, the metric list and the timers alone |
| Persistence.DeleteDevice | models/device.js:421-427 | A committed delete leaves the device with no metrics, no rows and no timer; a failed one changes nothing; other devices' timers are untouched |

## Left out

- I/O and collaborators:
  - SQL text and execution, and the asynchronous sequencing of statements. Database outcomes are inputs, and a transaction is a snapshot restored on failure.
  - The history and changes tables, `checkHistoryTable` and the `alter table history.latencies` for a new device.
  - The error callback at models/device.js:405, which names undefined variables and only logs.
- Plugins and probes:
  - Plugin loading and the collectors: `getValues` is the `Collector` parameter.
  - `nmap.route`: the hop list is a parameter.
  - `eval` of expressions and `calcExpressionValue`: these are the `evaluate` parameter. A thrown `Error` is given as its text.
- Varbind collaborators:
  - Each metric's own `updateStatus`: this is the `rule` parameter.
  - The varbind cache (`cache`, `cache('CLEAR')`) and `stores[i].push`.
  - Object identity of metrics: they are values in the device's list.
- Omitted operations:
  - The order `updateVarbindList` gives the re-read metric list: it sorts with `Intl.Collator.compare` on metric objects, which compares their common string form and so keeps the varbind cache's order, and that cache is not part of this model. Building a metric from its row is the `make` parameter.
  - `updateParent` after a save.
  - The query plumbing `getValue`, `getHistory`, `getChanges` and `getHistoryByTag`.
- JavaScript semantics and library behaviour:
  - `for…in` key order in `getTagList` and `setAttributes`: the dictionaries are maps, so the model states contents and not key order.
  - Events are returned as values (`PollEvent`, `Latency.Event`) rather than emitted. Their listeners are not modelled.
  - `Object.assign(this, data)` in `setAttributes` (models/device.js:186) merges: a property missing from `data` keeps the device's old value, and properties outside the listed attributes are copied too. Here every row is a complete `DeviceRow`, so ingestion replaces all the attributes.
  - Tag names that are members of `Object.prototype` (such as `constructor` or `toString`): in `getTagList` (models/device.js:96-101) `tags[tag]` finds the inherited value, which is truthy and has no `push`, so the source throws. The tag dictionary here is a map without inherited entries, so such a tag is an ordinary key.
  - `new Date().getTime()`: the time is a parameter.
  - IEEE floating point: numbers are reals, with `Infinity` and `NaN` as separate cases. `parseFloat`, `Number(s)`, number printing and the `RegExp` engine are the `Builtins` parameter.
  - `JSON.parse`: its outcome is an input, and its error message is an opaque string.
  - `force_status_to` and `period` are integers: an undefined `force_status_to`, and so an undefined status, is not modelled.
- Timers:
  - Timers are handles in a queue of pending timeouts. A pass runs synchronously when its timeout fires, and the time elapsed is not modelled.
  - A `NaN` delay (a non-numeric `period`) is not modelled.
- Ids:
  - How `db.upsert` assigns ids is modelled as a counter.
  - A metric id that is not a non-zero whole number is treated as no id.
  - After a rolled-back save, the device keeps its old id. The source may leave the id the failed upsert set.
- Weaker contracts:
  - Latency.UpdateLatencies: its ensures state the inserted row and when the walk raises, not each device's new state; Latency.ApplyProbe states that per device.
  - Persistence.Store.Save: its ensures do not say which id a new device receives beyond its being non-zero; Persistence.Store.UpsertDevice states that.
  - Persistence.Store.Save: the device row holds all of the device's attributes, not only the eleven columns `db.upsert` writes.
  - Persistence.Store.UpsertMetric: `new Varbind(v)` (models/device.js:468) is taken to hand back the prepared fields unchanged, so the row written holds the prepared metric's fields, projected on the nine upserted columns. What the `Varbind` constructor adds or changes is not part of this model.
  - Persistence.SavedMetricsHold: for the same reason, a saved row's columns are the projection of `Prepare(v)`, not of the constructed `Varbind`.

## Findings

| source | as written | input that shows it | evidently intended | confidence | as-written member | corrected member |
|---|---|---|---|---|---|---|
| models/device.js:570 | `!value` returns a numeric 0 unconverted, while the text "0" is converted | reading 0 with divider "1C" stays 0, but "0" gives -160/9; 32 with "1C" then "1F" gives 0 back, not 32 | 0 is a reading like any other, and only empty, null or undefined values skip the arithmetic | not executed | Normaliser.ZeroSkipsConversion | Normaliser.CelsiusRoundTrip, Normaliser.NumberAndTextAgree |
| models/device.js:82 | `device.force_status_to` reads a name not declared in `updateLatencies`, and the file is strict | a pinged device that is not alive and has no status-bearing metrics raises a ReferenceError, after its `prev_status` was already moved | the down status is `d.force_status_to \|\| 3` | not executed | Latency.DownDeviceRaises | Latency.IntendedPingStatus |
