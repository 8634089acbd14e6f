# Fleet dashboard: trend, mission-completion and debrief logic

A Dafny model of the three pieces of logic inside the dashboard's React
components. Everything else in them is view code.

- **Fuel-efficiency analytics** (`Analytics.tsx`). The panel loads a vehicle's
  fuel logs, oldest first, and stores one MPG point per log. It compares the
  mean of the newest three readings with the mean of the up-to-three readings
  before them. It classifies the percent difference as `down`, `up` or
  `stable` with strict ±5 thresholds. It shows a declining or improving banner
  and an average / best / worst summary. The model is the `MpgAnalytics`
  class, whose `LoadMpgData` follows the code branch by branch, backed by the
  pure functions `Slice`, `Sum`, `Classification`, `NextTrend` and `SummaryOf`.
- **Active missions** (`MissionControl.tsx`). `MissionPanel` holds the active
  missions and the selected mission. `HandleCompleteMission` builds the
  completion update (status `completed`, actual miles, timestamps equal to
  `now`). Only when the store write succeeds does it filter the mission out
  and clear the selection. `ElapsedText` is the elapsed-time label. It uses
  floor division, JS's sign-of-dividend remainder and the decimal text of the
  integers. `ProfitToneOf` is the sign colouring of the estimated profit.
- **Mission debrief** (`MissionDebriefModal.tsx`). `DebriefDialog` holds the
  mileage field, which starts at the estimated miles. Its submit guard
  (`!miles || miles <= 0` rejects) issues at most one completion request.
  CANCEL only closes the dialog.

JS numbers are `real`. Where JS semantics matter, they are written out in
`JsValues`:
- `JsNumber` covers NaN and the infinities that `parseFloat` can return.
- Truthiness and `<=` are defined as JS defines them.
- `TruncRem` is JS's `%`.
- `IntToString` is the text a template literal gives an integer, with a
  round-trip lemma.

Two behaviours of the code worth knowing:

- A non-empty fetch of 1–3 samples leaves `trend` untouched (with 3, the
  prior window is empty). With 4 or 5 samples the code does classify,
  against 1 or 2 prior readings. Only an empty fetch resets the trend to
  `stable` (`Classification`, `NextTrend`).
- The completion guard only rejects falsy and `<= 0` values, so it accepts
  a `parseFloat` result of `Infinity`, e.g. from "1e400"
  (`AcceptsMilesIffPositive`).

## Model

| member | source | states |
|---|---|---|
| `Analytics.SumPositive` | src/components/Analytics.tsx:84-85 | a non-empty series of positive readings has a positive sum and mean, so the percent difference never divides by zero |
| `Analytics.Slice` | src/components/Analytics.tsx:81-82 | JS `slice(begin, end)` with negative indices counted from the end; never longer than the input (window shapes in `RecentWindowIsLastThree`, `PriorWindowShape`) |
| `Analytics.Sum` | src/components/Analytics.tsx:81-84 | the `reduce((sum, d) => sum + d.mpg, 0)` left fold; positivity in `SumPositive`, bounds in `SumBetween`, scaling in `SumScale` |
| `Analytics.Mean` | src/components/Analytics.tsx:84 | sum divided by the count; bounds in `MeanBetween`, positivity in `SumPositive` |
| `Analytics.RecentWindow` | src/components/Analytics.tsx:81 | `slice(-3)`: the last three readings for n ≥ 3 (`RecentWindowIsLastThree`) |
| `Analytics.PriorWindow` | src/components/Analytics.tsx:82 | `slice(-6, -3)`: positions [max(n-6,0), n-3) (`PriorWindowShape`) |
| `Analytics.PercentDifference` | src/components/Analytics.tsx:85 | `((recent - prior) / prior) * 100`; its thresholds without division in `DivisionFreeThresholds` |
| `Analytics.Classify` | src/components/Analytics.tsx:87-93 | `down` iff the difference is below -5, `up` iff above 5, `stable` iff within [-5, 5], so exactly ±5 is stable |
| `Analytics.Classification` | src/components/Analytics.tsx:80-94 | a load yields a classification iff the series has at least 4 samples; 1–3 samples leave the trend alone, and an empty load resets it to `stable` (`NextTrend`) |
| `Analytics.RecentWindowIsLastThree` | src/components/Analytics.tsx:81 | for n ≥ 3 the recent window is the last three samples and its sum is their sum |
| `Analytics.PriorWindowShape` | src/components/Analytics.tsx:82-83 | the prior window is positions [max(n-6,0), n-3), so its length is min(n-3, 3) |
| `Analytics.DivisionFreeThresholds` | src/components/Analytics.tsx:85-93 | with a positive prior mean: `down` iff recent < 0.95·prior, `up` iff recent > 1.05·prior, `stable` iff in between (inclusive) |
| `Analytics.ClassificationByMeans` | src/components/Analytics.tsx:80-93 | for n ≥ 4, the classification is `down`/`up` exactly when the recent-window mean is below 95% / above 105% of the prior-window mean |
| `Analytics.ScaleInvariance` | src/components/Analytics.tsx:81-93 | multiplying every reading by the same positive factor leaves the classification unchanged |
| `Analytics.NextTrend` | src/components/Analytics.tsx:68-98 | after a successful fetch: empty gives `stable`, 1–3 samples keep the previous trend, 4+ give the classification |
| `Analytics.Format` | src/components/Analytics.tsx:69-76 | the stored series has one point per fetched log, in order, with the same date and mpg |
| `Analytics.Mpgs` | src/components/Analytics.tsx:242 | `map(d => d.mpg)`: one reading per point, in order |
| `Analytics.DecliningAlert` | src/components/Analytics.tsx:146 | the "EFFICIENCY DROPPING" guard `trend === 'down' && length >= 3`; pinned by `AlertsNeedData` and `AlertsAfterLoad` |
| `Analytics.ImprovingAlert` | src/components/Analytics.tsx:160 | the "EFFICIENCY IMPROVING" guard `trend === 'up' && length >= 3`; pinned by `AlertsNeedData` and `AlertsAfterLoad` |
| `Analytics.AlertsNeedData` | src/components/Analytics.tsx:146-160 | at most one banner shows; none shows with fewer than 3 entries; declining needs `down`, improving needs `up` |
| `Analytics.AlertsAfterLoad` | src/components/Analytics.tsx:80-160 | after a load of 4+ readings, the declining / improving banner shows iff recent < 0.95·prior / recent > 1.05·prior |
| `Analytics.MaxOf` | src/components/Analytics.tsx:242 | BEST is a reading of the series and no reading exceeds it |
| `Analytics.MinOf` | src/components/Analytics.tsx:251 | WORST is a reading of the series and no reading is below it |
| `Analytics.SummaryOf` | src/components/Analytics.tsx:226-253 | the summary panel exists iff the series is non-empty |
| `Analytics.SumBetween` | src/components/Analytics.tsx:233 | a sum of n readings within [lo, hi] lies within [n·lo, n·hi] |
| `Analytics.MeanBetween` | src/components/Analytics.tsx:233 | the average lies within any bounds of the readings, and average·n equals the sum |
| `Analytics.SummaryBounds` | src/components/Analytics.tsx:226-253 | for a non-empty series worst ≤ average ≤ best, and best and worst are readings of the series |
| `Analytics.TrendExamples` | src/components/Analytics.tsx:80-93 | 30→20 mpg is `down`, 20→26 is `up`, 25→25.5 (+2%) is `stable` |
| `Analytics.SummaryExample` | src/components/Analytics.tsx:226-253 | the summary of 10, 15, 20 is average 15, best 20, worst 10 |
| `Analytics.StaleTrendAlert` | src/components/Analytics.tsx:80-98 | as written: a previous `down` trend survives a 3-sample load and the declining banner shows for it |
| `Analytics.TrendOrStable` | src/components/Analytics.tsx:80-98 | corrected: fewer than 4 readings give `stable`, and 4 or more give the classification of those readings |
| `Analytics.CorrectedAlertsReflectData` | src/components/Analytics.tsx:146-160 | corrected: each banner shows iff the load has at least 4 readings and its recent mean is below 95% (declining) / above 105% (improving) of its prior mean |
| `Analytics.MpgAnalytics.constructor` | src/components/Analytics.tsx:23-25 | the panel starts with no data, trend `stable`, not loading |
| `Analytics.MpgAnalytics.LoadMpgData` | src/components/Analytics.tsx:56-105 | a failed fetch changes neither series nor trend; a successful one stores `Format(logs)` and sets the trend to `NextTrend` of the old trend; loading ends false |
| `JsValues.TruncRem` | src/components/MissionControl.tsx:83 | JS `%` by a positive divisor: dividend minus a whole multiple of the divisor, magnitude below the divisor, sign of the dividend, Euclidean remainder for non-negative dividends |
| `JsValues.NatToString` | src/components/MissionControl.tsx:86-88 | the decimal text is non-empty, all digits, without a leading zero |
| `JsValues.IntToString` | src/components/MissionControl.tsx:86-88 | the text starts with '-' iff the integer is negative, every other character is a digit, and the digits have no leading zero (0 is written "0") |
| `JsValues.IntToStringMagnitude` | src/components/MissionControl.tsx:86-88 | the digits after the optional '-' read back as the integer's magnitude |
| `JsValues.ParseNatToString` | src/components/MissionControl.tsx:86-88 | reading the decimal text back gives the same number |
| `JsValues.NatToStringInjective` | src/components/MissionControl.tsx:86-88 | different numbers never print the same text |
| `MissionControl.CompletionRecord` | src/components/MissionControl.tsx:55-63 | the update targets the mission id with status `completed`, the given actual miles, and completed_at = updated_at = now |
| `MissionControl.Without` | src/components/MissionControl.tsx:67 | the filtered list never grows and holds exactly the old missions whose id differs |
| `MissionControl.WithoutAppend` | src/components/MissionControl.tsx:67 | filtering distributes over concatenation, so kept missions keep their order |
| `MissionControl.WithoutSingle` | src/components/MissionControl.tsx:67 | a single mission is kept iff its id differs |
| `MissionControl.WithoutAbsent` | src/components/MissionControl.tsx:67 | completing an id no active mission has leaves the list unchanged |
| `MissionControl.WithoutIdempotent` | src/components/MissionControl.tsx:67 | completing the same id twice equals completing it once |
| `MissionControl.ElapsedHours` | src/components/MissionControl.tsx:82 | `Math.floor(diffMs / 3600000)`: the largest h with h·3600000 ≤ gap, also for a negative gap |
| `MissionControl.ElapsedMinutes` | src/components/MissionControl.tsx:83 | minutes of the truncated remainder: within -60..59, and non-negative for a non-negative gap |
| `MissionControl.ElapsedText` | src/components/MissionControl.tsx:78-89 | `getTimeElapsed`: the label ends in "m" and contains "h" iff a whole hour has passed; its exact text in `ElapsedTextByMinutes` and `ElapsedTextNegativeGap` |
| `MissionControl.ElapsedSplit` | src/components/MissionControl.tsx:81-83 | for a non-negative gap: hours ≥ 0, minutes in 0..59, hours·60 + minutes = ⌊gap / 60000⌋ |
| `MissionControl.ElapsedTextByMinutes` | src/components/MissionControl.tsx:78-89 | for T whole minutes elapsed the label is "{T/60}h {T%60}m" when T ≥ 60 and "{T}m" otherwise |
| `MissionControl.ElapsedTextExamples` | src/components/MissionControl.tsx:85-88 | 90 minutes reads "1h 30m" and 45 minutes reads "45m" |
| `MissionControl.ElapsedTextNegativeGap` | src/components/MissionControl.tsx:81-88 | a creation time 30 minutes in the future gives hours -1 and the label "-30m" |
| `MissionControl.ProfitToneOf` | src/components/MissionControl.tsx:155-156 | estimated profit > 0 is a gain; ≤ 0, zero included, is a loss |
| `MissionControl.MissionPanel.constructor` | src/components/MissionControl.tsx:25-27 | no missions, no selection, loading |
| `MissionControl.MissionPanel.LoadActiveMissions` | src/components/MissionControl.tsx:35-51 | a successful query replaces the list, a failed one keeps it; loading ends false |
| `MissionControl.MissionPanel.SelectMission` | src/components/MissionControl.tsx:176 | COMPLETE on a card selects that mission and changes nothing else |
| `MissionControl.MissionPanel.CloseDebrief` | src/components/MissionControl.tsx:190 | closing the debrief clears the selection and changes nothing else |
| `MissionControl.MissionPanel.HandleCompleteMission` | src/components/MissionControl.tsx:53-76 | writes `CompletionRecord`; on success the list becomes the old list without that id and the selection is cleared; on failure neither changes; the parent is notified only on success |
| `MissionControl.MissionPanel.SubmitDebrief` | src/components/MissionControl.tsx:186-191 | a rejected mileage writes nothing and changes nothing; an accepted one writes the completion for the selected mission and, if stored, removes it |
| `JsValues.Truthy` | src/components/MissionDebriefModal.tsx:20 | JS truthiness of a number, the `!miles` test: false exactly for NaN and 0 (`AcceptsMilesIffPositive`) |
| `JsValues.AtMost` | src/components/MissionDebriefModal.tsx:20 | JS `miles <= 0`: false for NaN and +Infinity (`AcceptsMilesIffPositive`) |
| `MissionDebrief.AcceptsMiles` | src/components/MissionDebriefModal.tsx:20 | the guard `!miles \|\| miles <= 0` negated; pinned by `AcceptsMilesIffPositive` |
| `MissionDebrief.AcceptsMilesIffPositive` | src/components/MissionDebriefModal.tsx:20 | the guard passes exactly +Infinity and finite values > 0; NaN, 0 and negatives are rejected |
| `MissionDebrief.SubmitRequest` | src/components/MissionDebriefModal.tsx:18-22 | a request is issued iff the value is strictly positive, and it carries this mission's id and the parsed value unchanged |
| `MissionDebrief.DebriefDialog.constructor` | src/components/MissionDebriefModal.tsx:16 | the mileage field starts at the mission's estimated miles |
| `MissionDebrief.DebriefDialog.EditMiles` | src/components/MissionDebriefModal.tsx:55 | editing the field replaces its value |
| `MissionDebrief.DebriefDialog.HandleSubmit` | src/components/MissionDebriefModal.tsx:18-22 | returns `SubmitRequest` of the field: at most one request, only for an accepted value, which is +Infinity or > 0 |
| `MissionDebrief.DebriefDialog.Click` | src/components/MissionDebriefModal.tsx:84-90 | CANCEL always closes and never completes; only COMPLETE MISSION with an accepted value yields a completion request |

## Left out

- The database queries and updates are not modelled (`Analytics.tsx:37-64`, `MissionControl.tsx:35-63`). Fetch results are `Option` inputs, with None for an error. The write's outcome is the boolean `stored`. The vehicle list and vehicle selection of the analytics panel are not modelled.
- `parseFloat` and the field's text are not modelled. The dialog holds the number `parseFloat` returns. The initial field takes `estimated_miles.toString()` to read back as the same number. JS guarantees that round trip for finite numbers.
- IEEE-754 rounding, `toFixed` display and the `toLocaleDateString` display date are not modelled; numbers are reals.
- Timestamps are integer milliseconds. Parsing the `created_at` text, and the NaN an invalid date gives, are not modelled. The two `new Date()` reads for `completed_at` and `updated_at` are one `now` parameter, although the real clock may tick between them.
- `IntToString` writes plain decimal digits. JS uses exponent notation from 1e21 on, which no difference between valid Dates reaches.
- `Analytics.MpgAnalytics.LoadMpgData`: requires every fetched mpg to be positive. The code does not guard a zero prior mean, which would give a NaN or infinite difference.
- `Analytics.Classification`: requires positive readings, for the same reason.
- `onMissionUpdate` is modelled as a flag and a `notified` result. What the parent then does is not part of this model.
- Rendering and the chart are not modelled. Neither is React's asynchronous state: the model applies each handler to the current state, with no stale closures or interleaved fetches. The `loading: true` intermediate state is not modelled either.
- CommandHUD.tsx (weather over HTTP, polling, time-zone formatting), Dashboard.tsx, GridOps.tsx and Card.tsx are view composition or I/O and are not part of this model.

## Findings

| source | as written | input that shows it | evidently intended | confidence | as-written member | corrected member |
|---|---|---|---|---|---|---|
| src/components/Analytics.tsx:80-98 | a load of 1–3 readings leaves `trend` untouched, and the banners (lines 146, 160) test only `trend` and `mpgData.length >= 3` | previous vehicle's trend `down`; switch to a vehicle whose logs are 30, 30, 30 → "EFFICIENCY DROPPING" shows, although nothing was compared | a load that cannot classify shows `stable`, so a banner reflects the loaded vehicle's own readings | medium, not executed | `Analytics.StaleTrendAlert` | `Analytics.CorrectedAlertsReflectData` |

`MpgAnalytics` keeps the as-written behaviour so that it stays faithful to the code. `TrendOrStable` is the corrected trend rule, and `CorrectedAlertsReflectData` is proved about it.
