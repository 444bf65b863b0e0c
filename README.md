# Grafana incident fetching, modelled in Dafny

The Grafana integration polls a Grafana server for alerts and turns new ones
into incidents for the orchestration platform. The one piece of logic in it
is the fetch watermark, modelled here:

- The start of the fetch window (`calculate_fetch_start_time`) is the
  configured lookback instant, or the later of the stored last fetch and the
  lookback instant. Both are cut to whole seconds.
- The `max_fetch` parameter is clamped to at most 50 in `main`.
- `parse_alerts` sorts the fetched alerts in place by `newStateDate` at full
  precision. It then walks them with a counter capped at `max_fetch`. An
  alert whose date, cut to the second, is not strictly after the watermark is
  skipped. Every other alert gets its `type` set and becomes an incident
  (`parse_alert`), and the running high-water mark advances.
- `fetch_incidents` chains the two. The stored watermark is a value passed in
  and returned, instead of the platform's key-value store.
- The small helpers are modelled too: `change_key`, `lower_keys`,
  `decapitalize` and `url_encode`.

Timestamps are integers counting microseconds since the epoch.
Cutting to the second is `t - t % 1000000`; Dafny's `%` is Euclidean, so
this matches `datetime.replace(microsecond=0)` for instants before 1970 too.
An alert is a class: its `name`, `newStateDate` and other keys are
constants, and its `type` key is a mutable field. The alert list is an
`array<Alert>` of references. The sort permutes the references and
`parse_alert` writes through them, as the Python list of dicts does.

Files:
- `wrappers.dfy`: `Option`.
- `helpers.dfy`: module `Helpers`, the string and dict helpers.
- `fetch.dfy`: module `Fetch`, the fetch logic. It has:
  - specification functions: `Fresh` (the new alerts), `Emitted` (what the
    capped walk takes) and `HighWater` (the running maximum);
  - the methods `SortByDate`, `ParseAlert`, `EmitNew`, `ParseAlerts` and
    `FetchIncidents`, each proved against those functions;
  - lemmas for the properties.

Behaviour at the batch cap. When the cap cuts a batch between two alerts of
the same second, the later alert is never emitted, on this fetch or any
later one. The returned watermark is that second, and the filter is a strict
`>`. So the poller's intended behaviour, that alerts beyond the cap are only
deferred to the next fetch, holds only for alerts in a later second than the
new watermark. `CapDefersOrDrops` proves this split, and
`SameSecondBeyondCapIsDropped` gives a two-alert instance. Also, the
sort key is the full-precision date, not the truncated one, as line 237
of the source shows. The model follows the code in both places.

## Model

| member | source | states |
|---|---|---|
| `Helpers.Decapitalize` | Packs/Grafana/Integrations/Grafana/Grafana.py:202-209 | the empty string is returned unchanged; otherwise the length is kept, the first character is lower-cased (no longer an upper-case letter) and the rest is identical |
| `Helpers.DecapitalizeCollision` | Packs/Grafana/Integrations/Grafana/Grafana.py:202-209 | two keys that decapitalize to the same key have the same length and tail and differ at most in the case of the first letter |
| `Helpers.LowerKeys` | Packs/Grafana/Integrations/Grafana/Grafana.py:194-199 | the last item's decapitalized key is in the result and holds the last item's value |
| `Helpers.LowerKeysKeys` | Packs/Grafana/Integrations/Grafana/Grafana.py:194-199 | the keys of the result are exactly the decapitalized keys of the input items |
| `Helpers.LowerKeysValues` | Packs/Grafana/Integrations/Grafana/Grafana.py:194-199 | each decapitalized key holds the value of the last item whose key decapitalizes to it (later items win, as in `dict(...)`) |
| `Helpers.ReplaceSpaces` | Packs/Grafana/Integrations/Grafana/Grafana.py:218 | the result holds no space and is no shorter than the input; the empty string stays empty, a single space becomes `%20` and any other single character is kept |
| `Helpers.ReplaceSpacesConcat` | Packs/Grafana/Integrations/Grafana/Grafana.py:218 | the replacement of a concatenation is the concatenation of the replacements, so with the one-character cases every space becomes `%20` and every other character stays in place |
| `Helpers.UrlEncode` | Packs/Grafana/Integrations/Grafana/Grafana.py:212-219 | `None` exactly when the query is absent or empty; otherwise `ReplaceSpaces` of the query, which holds no space |
| `Helpers.DecodeReplaceSpaces` | Packs/Grafana/Integrations/Grafana/Grafana.py:212-219 | decoding `%20` back to spaces recovers any query without `%`, so the encoding loses nothing |
| `Helpers.Renamed` | Packs/Grafana/Integrations/Grafana/Grafana.py:184-191 | a missing key leaves the dict as it was; a present key's value moves to the new key, the old key is gone, and every other key keeps its value |
| `Helpers.Dict.ChangeKey` | Packs/Grafana/Integrations/Grafana/Grafana.py:184-191 | the dict is changed in place to its renamed contents, and the same dict is returned |
| `Fetch.TruncateToSecond` | Packs/Grafana/Integrations/Grafana/Grafana.py:244 | the result is a whole second, at or before the instant and less than a second before it |
| `Fetch.TruncateMonotone` | Packs/Grafana/Integrations/Grafana/Grafana.py:237-244 | cutting to the second keeps the order of instants, so the full-precision sort also orders the truncated dates |
| `Fetch.CalculateFetchStartTime` | Packs/Grafana/Integrations/Grafana/Grafana.py:222-228 | the lookback instant when nothing is stored; otherwise the later of the stored fetch and the lookback; always a whole second |
| `Fetch.ClampMaxFetch` | Packs/Grafana/Integrations/Grafana/Grafana.py:750-752 | the result is never zero and never above 50; it is 50 exactly when the parameter is missing, zero or at least 50, and the parameter itself otherwise (negatives included) |
| `Fetch.Fresh` | Packs/Grafana/Integrations/Grafana/Grafana.py:244-258 | exactly the alerts whose truncated date is strictly after the watermark |
| `Fetch.EmittedIsCappedFresh` | Packs/Grafana/Integrations/Grafana/Grafana.py:239-250 | the alerts the capped walk takes are the first `max_fetch` new alerts in list order, so skipped alerts do not count against the cap |
| `Fetch.EmittedBound` | Packs/Grafana/Integrations/Grafana/Grafana.py:233-248 | at most `max_fetch` incidents are made, and none when `max_fetch` is not positive |
| `Fetch.EmittedAreNew` | Packs/Grafana/Integrations/Grafana/Grafana.py:244-258 | every emitted alert is from the list and strictly after the watermark; alerts at or before it give no incident |
| `Fetch.EmittedComplete` | Packs/Grafana/Integrations/Grafana/Grafana.py:239-250 | unless the cap was reached, every new alert is emitted |
| `Fetch.EmittedSaturated` | Packs/Grafana/Integrations/Grafana/Grafana.py:240-241 | once the count reaches `max_fetch`, the rest of the list adds nothing, so the `break` is exact |
| `Fetch.FreshSorted` | Packs/Grafana/Integrations/Grafana/Grafana.py:237-247 | the new alerts of a date-sorted list are date-sorted |
| `Fetch.EmittedSorted` | Packs/Grafana/Integrations/Grafana/Grafana.py:237-247 | on the sorted list the incidents come out in ascending full-precision date order |
| `Fetch.HighWaterIsMax` | Packs/Grafana/Integrations/Grafana/Grafana.py:234-250 | the returned watermark is at least the input watermark and every emitted truncated date, and equals one of them: it is their maximum and never moves backward |
| `Fetch.HighWaterWholeSecond` | Packs/Grafana/Integrations/Grafana/Grafana.py:244-250 | a watermark on a whole second stays on a whole second |
| `Fetch.IncidentsWithinWatermarks` | Packs/Grafana/Integrations/Grafana/Grafana.py:244-266 | each incident's truncated `occurred` is strictly after the input watermark and at or before the returned one |
| `Fetch.NoReemission` | Packs/Grafana/Integrations/Grafana/Grafana.py:232-258 | a fetch from the returned watermark, over any alert list, emits only alerts in a strictly later second than every alert of the first fetch, so none of them again |
| `Fetch.RepollEmitsNothing` | Packs/Grafana/Integrations/Grafana/Grafana.py:232-258 | when the first fetch stayed below the cap, fetching the same alerts from the returned watermark emits nothing |
| `Fetch.CapDefersOrDrops` | Packs/Grafana/Integrations/Grafana/Grafana.py:237-250 | on the sorted list, a new alert left out by the cap lies in the second of the returned watermark or later |
| `Fetch.SameSecondBeyondCapIsDropped` | Packs/Grafana/Integrations/Grafana/Grafana.py:240-250 | with two alerts in one second and a cap of one, the first is emitted, the watermark becomes that second, and no later fetch emits the second alert |
| `Fetch.SortByDate` | Packs/Grafana/Integrations/Grafana/Grafana.py:237 | the array afterwards is a permutation of the input, ascending by full-precision `newStateDate` |
| `Fetch.ParseAlert` | Packs/Grafana/Integrations/Grafana/Grafana.py:255-267 | an incident exactly when there is no watermark or the truncated date is after it; the incident copies `name` and `occurred`, has type 'Grafana Alert' and the alert's JSON; the alert's `type` is then 'Grafana Alert', and an alert left out is unchanged |
| `Fetch.EmitNew` | Packs/Grafana/Integrations/Grafana/Grafana.py:239-252 | the loop returns the incidents of the emitted alerts in order and their high-water mark, and sets `type` on exactly the emitted alerts |
| `Fetch.ParseAlerts` | Packs/Grafana/Integrations/Grafana/Grafana.py:231-252 | the list ends sorted and permuted; the incidents and watermark are those of the emitted alerts; at most `max_fetch` incidents; watermark not below the input; each incident between the two watermarks |
| `Fetch.FetchIncidents` | Packs/Grafana/Integrations/Grafana/Grafana.py:680-690 | one cycle parses from the computed start: the alert list ends as a sorted permutation of the fetched alerts, `type` is set on exactly the emitted ones, and the incidents and watermark are those of the emitted alerts; the watermark to store is a whole second, not before the start nor the stored one, and the batch respects the cap |

## Left out

- The `Client` class and its request methods, `_concatenate_url`, every `*_command` function, `test_module` and the command dispatch of `main`. They wrap a vendor HTTP client and display helpers that are not part of this model.
- Host persistence (`demisto.getLastRun`, `setLastRun`, `demisto.incidents`). `FetchIncidents` takes the stored watermark as a parameter and returns the new one. The model assumes that storing it through `date_to_timestamp` and reading it back with `dateparser` gives the same instant.
- Date parsing (`dateparser.parse`), time zones and the relative lookback text such as '3 days'. Timestamps arrive as integers, and `firstFetch` is the lookback instant already resolved against the clock. A date that fails to parse raises in the source; it is not modelled.
- `json.dumps`: an incident's `rawJSON` is kept as the alert's content (`AlertJson`), not as text.
- `demisto.debug` logging.
- `arg_to_number`: `ClampMaxFetch` takes the parameter already parsed, and the parse error for non-numeric text is not modelled.
- The insertion order of Python dicts. In the source, `change_key` moves the renamed key to the end of the dict when the new key was not already there; an existing new key is overwritten where it stands.
- Missing alert keys. The source raises `KeyError` when an alert has no `newStateDate` (in the sort and in the loop) or no `name` (when the incident is built, after `type` has already been written). The `Alert` class always has both, so these failures are not modelled.
- Helpers.Decapitalize: lower-cases ASCII letters only. Python's `str.lower` also maps other letters, sometimes to more than one character.
- Fetch.SortByDate: does not state stability. It is a stable insertion sort, as Python's sort is stable, but the order of alerts with equal dates is not part of its contract.
