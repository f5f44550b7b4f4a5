# Earthquake risk triage: a Dafny model

This project models the decision logic of an earthquake safety-check backend. It covers two parts.

1. **The risk-triage rules of `consult_chatgpt`** (`functions/chatgpt.py`). The function runs a small pre-filter over the accounts. It then sends the event and the accounts to a language model, together with a rule sheet (the system prompt). The model covers both parts:
   - **The pre-filter as executed.** An account is dropped when the last entry of its `safety_history` is stamped strictly after the event `time` and says "安全" (safe). An empty history makes `[-1]` raise, and the whole call fails with a wrapped exception. The user message then serialises the *unfiltered* `users`, so the pre-filter has no effect on what is sent.
   - **The rule sheet as a deterministic reference function.** It has four steps:
     - the intensity at an address is estimated from the maximum intensity and the distance band;
     - targets are selected against the event time;
     - a five-level risk table is applied;
     - the answer is restricted to `{id, status}` entries with status 2 to 5.

   Intensities are on the Japan Meteorological Agency scale (shindo 0, 1, 2, 3, 4, 5-lower, 5-upper, 6-lower, 6-upper, 7), modelled as a ten-constructor datatype.
2. **The safety-response log processing of `test_json_processing`** (`functions/test_json_processing.py`). It has five steps:
   - the loaded JSON is made a list;
   - records with `user_id == 'USR01235'` are dropped;
   - if nothing remains, it falls back to all records;
   - the records are sorted by `timestamp` descending, with `''` for a missing one, using Python's stable `sorted(..., reverse=True)`;
   - the result is wrapped as `{"user_data": ...}`.

   The same filter condition appears as a list comprehension in `functions/test_endpoint.py:47-50`.

Modules, leaves first:

- `Wrappers`: `Option` and `Result`.
- `Sequences`: order-preserving `Filter` and the subsequence relation.
- `Lex`: Python's string order.
- `Timestamps`: the `YYYY-MM-DD HH:MM:SS` layout, and the proof that its string order is chronological.
- `Shindo`: the intensity scale and its labels (`震度5弱` …).
- `Attenuation`: the distance bands and the step-down rule.
- `Targeting`: safety reports and the account's standing since the event.
- `RiskLevel`: the level table.
- `RuleSheet`: accounts, the event, and the triage answer.
- `Consult`: the executed pre-filter and the user message.
- `StableSort`: Python's stable descending sort on string keys.
- `Records`: the log processing.

Modelling decisions:

- **Time comparison.** Timestamps are compared as strings, as the code does. `Timestamps.StringOrderIsChronological` shows that for the documented layout this is the chronological order.
- **"以降" is inclusive.** The rule sheet selects updates made "地震発生時刻以降", at or after the event time, so `Targeting.SinceEvent` is inclusive. The executed pre-filter uses a strict `>`. The two therefore differ for a report stamped exactly at the event time (`Consult.SafeReportAtEventTime`).
- **Which report is "latest".** The sheet's "latest" safety report (line 19) is taken by timestamp. Among equal timestamps, the later list position wins. The pre-filter instead takes the last entry by position. The two agree on chronologically listed histories (`Consult.PreFilterAgreesWithRuleSheet`) and can disagree otherwise (`Consult.PreFilterDivergesOnUnorderedHistory`).
- **Statuses other than the two.** A latest report with a status other than "安全" or "危険" is neither excluded nor a target. That is the literal reading of lines 36-39.
- **Distance band.** The band of an address is an input (`bandOf`), because nothing in the code geocodes.
- **Steps inside the sheet's ranges.** The sheet gives ranges ("1〜2段階低下"), so the step inside each range is a `Policy` parameter constrained to that range and not pinned. "Close to the maximum" in the same municipality is taken as the maximum itself. The band beyond 200 km is "shindo 3 or below": the model takes any intensity at most shindo 3 and at most the maximum. `Attenuation.PlausibleIsEstimated` shows every such value is reachable.
- **Which intensity feeds the level table.** The table uses the intensity at the account's registered address, following the sheet's section "住所の震度推定方法".
- **Danger reports at low intensity.** A danger report at shindo 2 or below matches no row of the table. It gets no level, not an invented one.
- **Record keys.** A record's `user_id`, `timestamp` and `data` keys are modelled by typed fields. The set of its other key names is taken, by convention, to hold none of those three names; the type does not enforce this, and a record that breaks it denotes no JSON object.
- **Answer order.** The reference answer lists accounts in input order, because the sheet states no order.

## Model

| member | source | states |
|---|---|---|
| Timestamps.StringOrderIsChronological | functions/chatgpt.py:108 | for two timestamps in the documented `YYYY-MM-DD HH:MM:SS` layout, the string `<` used by the code holds exactly when the first reading is chronologically earlier (year, then month, … then second) |
| Timestamps.SameStringSameReading | functions/chatgpt.py:77 | two well-formed timestamps are equal strings exactly when they denote the same calendar reading |
| Shindo.ParseLabel | functions/chatgpt.py:89 | an intensity label such as "震度5弱" is read back as exactly the step whose label it is, and a string that is no step's label is rejected |
| Shindo.StepDown | functions/chatgpt.py:30-32 | lowering by k steps lands exactly k ranks lower, or at shindo 0 when the scale runs out, and never above the start |
| Attenuation.Estimate | functions/chatgpt.py:28-33 | the estimate never exceeds the maximum intensity, equals it in the epicenter's municipality, and is at most shindo 3 beyond 200 km |
| Attenuation.EstimateIsPlausible | functions/chatgpt.py:29-33 | whatever steps a valid policy picks, the estimate lies in the sheet's range for its band: 1-2 steps down within 50 km, 2-3 within 100 km, 3-4 within 200 km, clamped at shindo 0 |
| Attenuation.PlausibleIsEstimated | functions/chatgpt.py:29-33 | conversely, every intensity the sheet allows for a band is the estimate of some valid policy, so the policy parameter neither narrows nor widens the sheet's ranges |
| Attenuation.EstimateMonotone | functions/chatgpt.py:28-33 | at a fixed place and policy, a stronger maximum intensity never gives a weaker estimate |
| Attenuation.FartherIsNotStronger | functions/chatgpt.py:29-32 | among the same municipality and the three banded distances, a farther band never gets a stronger estimate than a nearer one under the same policy |
| Attenuation.FarBandCanExceedNearerBand | functions/chatgpt.py:32-33 | the beyond-200 km ceiling is not tied to the maximum: for a shindo 3 event it allows shindo 3 beyond 200 km while 200 km gives shindo 0 |
| Targeting.LatestSinceEventCorrect | functions/chatgpt.py:19-20 | the scan of a safety history finds no report exactly when none is stamped at or after the event, and otherwise finds the newest such report, the last listed one among equal timestamps |
| Targeting.LatestIsUnique | functions/chatgpt.py:19-20 | an account has at most one latest report since the event |
| Targeting.StandingOf | functions/chatgpt.py:35-39 | an account is not updated exactly when no report is stamped at or after the event time, updated to safe exactly when its latest such report says "安全", and updated to danger exactly when it says "危険" |
| RiskLevel.LevelOf | functions/chatgpt.py:41-46 | the level table equals a threshold count: an unconfirmed account scores 1 plus one per threshold reached among shindo 4, 5-lower, 6-lower and 7; a danger report scores 3 plus one per threshold among 5-lower and 6-lower from shindo 3 up, and has no level at shindo 2 or below |
| RiskLevel.LevelInRange | functions/chatgpt.py:41-46 | every defined level is between 1 and 5 |
| RiskLevel.LevelMonotone | functions/chatgpt.py:42-46 | for a fixed reason of concern, a stronger intensity never lowers the level and never leaves it undefined |
| RiskLevel.DangerNotBelowUnconfirmed | functions/chatgpt.py:43-46 | at the same intensity a danger report never ranks below an unconfirmed account |
| RuleSheet.ReadEvent | functions/chatgpt.py:85-90 | the event record's `intensity` label names an event exactly when it is one of the ten labels, and the event then has that intensity, with the record's time and epicenter |
| RuleSheet.ConcernOf | functions/chatgpt.py:36-39 | an account is a target exactly when it is not updated since the event or updated to danger; those updated to safe or to another status are not |
| RuleSheet.Assess | functions/chatgpt.py:35-46 | only targets get a level, always 1 to 5; an account updated to safe since the event never gets one; an account not updated always gets one |
| RuleSheet.AssessMonotone | functions/chatgpt.py:28-46 | with the same time, account, distance and policy, a stronger maximum intensity never lowers an account's level and never leaves a defined level undefined |
| RuleSheet.EntryFor | functions/chatgpt.py:49-64 | an account yields an entry exactly when its level is 2 or more, and the entry carries the account name as `id` and the level as `status` |
| RuleSheet.Triage | functions/chatgpt.py:48-64 | every entry's status is an integer 2 to 5, every entry comes from some account, and every account with an entry contributes it: level-1 and non-target accounts never appear |
| RuleSheet.TriageIsBatchIndependent | functions/chatgpt.py:16-22 | triaging two batches together gives the two answers one after the other: an account's entry does not depend on the other accounts |
| RuleSheet.ListedIffTargetOfLevelTwo | functions/chatgpt.py:48-63 | an account is listed exactly when it is a target and its level is at least 2 |
| RuleSheet.SafeAfterEventIsNeverListed | functions/chatgpt.py:36 | an account whose only report says "安全" since the event is never listed, whatever the distance and policy |
| RuleSheet.UnreportedAtEpicenterIsLevelFive | functions/chatgpt.py:29-46 | an account with no report in the epicenter's municipality of a shindo 7 event is listed with status 5 |
| Consult.PreFilter | functions/chatgpt.py:105-111 | the pre-filter fails exactly when some account has an empty history; otherwise it keeps exactly the accounts whose last listed report is not a "安全" report stamped strictly after the event, in their input order |
| Consult.PreFilterIsSubsequence | functions/chatgpt.py:105-111 | the pre-filter's result is a subsequence of its input: nothing added, nothing reordered |
| Consult.ConsultAsWritten | functions/chatgpt.py:105-121 | the call fails exactly when some history is empty, and otherwise the user message lists the unfiltered accounts, whatever the pre-filter kept |
| Consult.SkippedAccountIsStillSent | functions/chatgpt.py:105-120 | an account the pre-filter drops is still listed in the message as the code builds it, and would be absent from the message of the pre-filtered list |
| Consult.SampleAccountIsSkipped | functions/chatgpt.py:147-166 | the first account of the source's usage example, with a "安全" report in 2025 against a 2011 event, is one the pre-filter drops |
| Consult.Consult | functions/chatgpt.py:105-120 | with the pre-filtered list sent, the message holds exactly the input accounts the pre-filter keeps, and fails exactly when some history is empty |
| Consult.PreFilterAgreesWithRuleSheet | functions/chatgpt.py:106-111 | on a chronologically listed history whose last report is not stamped exactly at the event time, the pre-filter drops an account exactly when the rule sheet finds it updated to safe |
| Consult.SafeReportAtEventTime | functions/chatgpt.py:108 | a "安全" report stamped exactly at the event time does not make the pre-filter drop the account, but the rule sheet's "以降" counts it as an update to safe |
| Consult.PreFilterDivergesOnUnorderedHistory | functions/chatgpt.py:107 | when a later danger report is listed before an earlier safe report since the event, the pre-filter drops the account while the rule sheet targets it |
| StableSort.SortDescending | functions/test_json_processing.py:68-73 | the sorted list is a permutation of the input (same multiset) and its keys never increase along it |
| StableSort.SortIsStable | functions/test_json_processing.py:69-73 | for every key, the elements with that key appear in the sorted list in their input order |
| Records.Normalise | functions/test_json_processing.py:40-49 | a list is used unchanged, an object with a list under `data` becomes that list, any other object a one-element list, a string its characters; a number, boolean or null cannot be iterated |
| Records.AsRecords | functions/test_json_processing.py:52-57 | reading `user_id` fails exactly when some element is not an object; otherwise the records are the elements in order |
| Records.WithFallback | functions/test_json_processing.py:51-65 | the records are those without `user_id == 'USR01235'` when there is one such, and all records otherwise |
| Records.ProcessRecords | functions/test_json_processing.py:51-73 | the output is sorted newest `timestamp` first, is a permutation of the filtered or fallback list, and keeps the input order among equal timestamps |
| Records.Process | functions/test_json_processing.py:40-81 | the processing fails exactly for a number, boolean or null, or a list with a non-object element, and otherwise wraps the processed records as the only `user_data` field |
| Records.ProcessDropsExactlyExcludedUser | functions/test_json_processing.py:51-57 | when some record is not `USR01235`'s, the output holds every other record as many times as the input does and no record of `USR01235`; records without `user_id` are kept |
| Records.ProcessFallsBackToAll | functions/test_json_processing.py:61-65 | when every record is `USR01235`'s, the output holds all of them, and an empty input stays empty |
| Records.MissingTimestampsComeLast | functions/test_json_processing.py:71 | a record without `timestamp` is followed only by records whose key is `''` |
| Records.ObjectIsOneElementList | functions/test_json_processing.py:47-49 | an object without a list under `data` is processed as the one-element list holding it |
| Records.ObjectWithDataIsItsList | functions/test_json_processing.py:45-46 | an object with a list under `data` is processed as that list |
| Records.ProcessAsWritten | functions/test_json_processing.py:31-38 | with the debugging lines included, an object input succeeds only when it is empty, a scalar fails at `len`, and lists and strings are processed as without them |
| Records.ObjectWithDataFailsAsWritten | functions/test_json_processing.py:36-46 | as written, an object with a list under `data` always fails before the normalisation meant for it, although the normalisation would process it |

## Findings

| source | as written | input that shows it | evidently intended | confidence | as-written member | corrected member |
|---|---|---|---|---|---|---|
| functions/chatgpt.py:105-120 | the pre-filtered list `users_info` is built and never used; the message serialises `users` | an account whose last report is a "安全" report after the event, such as both accounts of the usage example at lines 156-179 | the message lists `users_info` | medium, not executed | Consult.SkippedAccountIsStillSent | Consult.Consult |
| functions/test_json_processing.py:36-38 | the debugging print indexes `all_data[0]`, which raises `KeyError` for every non-empty JSON object, so the object normalisation of lines 43-49 is reached only for `{}` | the object `{"data": [{"user_id": "USR01234"}]}` | a non-empty object reaches the normalisation | high, not executed | Records.ObjectWithDataFailsAsWritten | Records.Process |

In the first row, `Consult.ConsultAsWritten` builds the message as the code does and `Consult.Consult` sends the pre-filtered list. In the second row, `Records.ProcessAsWritten` includes the debugging lines, and `Records.ObjectWithDataIsItsList` proves the intended normalisation of `Records.Process`.

## Left out

- The language-model call, the API key check and the parsing of the reply (functions/chatgpt.py:123-141): an external, non-deterministic service. The rule sheet is modelled as a reference for what the reply should be, not as what the service returns.
- Magnitude: the sheet only says to consider it (functions/chatgpt.py:26), states no rule, and it is a float. The step within each range is a caller-chosen `Policy` instead.
- Distance from free-text addresses: nothing in the code geocodes, so the band of an address is the parameter `bandOf`.
- Missing dictionary keys (`safety_history`, `timestamp`, `status`, `time`) raising `KeyError` in the pre-filter: the datatypes always carry these fields. Only the empty history error is modelled.
- Non-string `timestamp` values in the log: comparing them with strings makes `sorted` raise, and the code then keeps the unsorted list (functions/test_json_processing.py:75-78). The model's timestamps are strings or absent.
- A JSON `null` under `user_id` or `timestamp`: an absent key is modelled, a null value is not. A non-string `user_id` behaves as a string other than `USR01235`.
- The values of record keys other than `user_id`, `timestamp` and `data`: the processing never reads them, so only their names are kept.
- File discovery, the printing and the sample print (functions/test_json_processing.py:9-38 and 82-92): I/O. The two debugging expressions that can raise, `len(all_data)` and `all_data[0]`, are modelled in `Records.ProcessAsWritten`.
- The Flask routes and the Firebase entry point (functions/main.py), the Firestore import scripts, the HTTP smoke tests and the frontend: I/O and presentation. The `/safetyCheck` route returns the log file without the `USR01235` filter.
- The exact text of the wrapped exception message (functions/chatgpt.py:143-144): the model keeps only which failure occurred.
- RuleSheet.Triage: one `Policy` serves the whole batch, so two accounts in the same band always get the same step. The sheet's ranges would allow different steps for different accounts, such as one step for one account within 50 km and two for another. The model fixes one choice inside each range per triage call; no stated property depends on it.
