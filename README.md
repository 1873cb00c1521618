# fix-strava-activity-type, modelled in Dafny

The script fetches every activity of the authenticated athlete from the
Strava API, page by page. It then looks at each activity tagged "Run". A run
whose average speed, converted to km/h and rounded to two decimals, is above
the configured maximum is changed to a "Ride" named "<km>km Ride". A run below
the configured minimum is changed to a "Walk" named "<km>km Walk". Every
other run is left alone. The first failed request, fetch or update, aborts
the whole run.

The model has six modules:

- `Wrappers`: `Option`, `Outcome` and `Result`, standing for the script's
  thrown errors.
- `Rounding`: `Math.round` as `Floor(x + 0.5)` over exact reals, and the two
  conversions `getAverageSpeedKmph` and `getDistanceKmStr`. Both give a whole
  number of hundredths within 0.005 of the exact value.
- `Activities`: the activity record, the `{id, type, name}` update payload,
  the two error kinds and the ok status range 200..299 of an HTTP response.
- `Classifier`: the per-activity decision of the main loop, with the two
  thresholds as parameters.
- `Fetcher`: `fetchAllActivities` as a method with the paging loop. The
  listing endpoint is a function from the request (`before`, `after`,
  `page`, `per_page`) to a response (status and decoded page). The
  timestamp `before` is an input. A ghost page number `bound`, which the
  service answers with an error or an empty page, makes the loop terminate.
- `Updater`: `updateActivity`, the main `for … of` loop as a method over the
  fetched list, and the whole script (fetch, then process). The service's
  answer to an update is a function from the payload to a status.

The new name is kept as the pair (distance in km, type) instead of a string.

Over exact reals, `Math.round(d / 10) / 100` is the same as rounding
`d / 1000` to two decimals (`Rounding.DistanceKmIsRoundedKm`). The two
formulas can differ only through IEEE-754 rounding of the intermediate
values, which the model does not represent.

## Model

| member | source | states |
|---|---|---|
| `Rounding.MathRound` | fix-activity-type.js:52 | `Math.round(x)` is an integer n with n - 0.5 <= x < n + 0.5, so halves go up |
| `Rounding.MathRoundUnique` | fix-activity-type.js:52 | that integer is the only one in the half-open interval, so `Math.round` is fully pinned down |
| `Rounding.RoundToHundredths` | fix-activity-type.js:52 | `Math.round(x * 100) / 100` is a whole number of hundredths h with h - 0.005 <= x < h + 0.005 |
| `Rounding.RoundToHundredthsUnique` | fix-activity-type.js:52 | any hundredth in that interval around x is the rounded value |
| `Rounding.AverageSpeedKmph` | fix-activity-type.js:51-53 | the km/h speed is a multiple of 0.01 within 0.005 of speed in m/s times 3.6 |
| `Rounding.DistanceKm` | fix-activity-type.js:47-49 | the km figure of the name is a multiple of 0.01 within 0.005 of metres / 1000 |
| `Rounding.DistanceKmIsRoundedKm` | fix-activity-type.js:48 | rounding to ten metres and then scaling equals rounding the km value to two decimals |
| `Rounding.RoundedAboveIff` | fix-activity-type.js:16-18 | for a threshold in hundredths, the rounded value is above it iff the exact value is at least 0.005 above it |
| `Rounding.RoundedBelowIff` | fix-activity-type.js:29 | for a threshold in hundredths, the rounded value is below it iff the exact value is more than 0.005 below it |
| `Classifier.Classify` | fix-activity-type.js:10-41 | a non-run gives no update; an update keeps the activity's id and is named after its rounded distance and new type; Ride iff a run's rounded speed is strictly above the maximum (whatever the minimum); Walk iff strictly below the minimum and not above the maximum; no update iff not a run or the speed is in [min, max], both ends included |
| `Classifier.ClassifyByExactSpeed` | fix-activity-type.js:16-38 | with thresholds in hundredths, a run becomes a Ride iff its exact speed is >= max + 0.005, a Walk iff it is < min - 0.005 and < max + 0.005, and stays a run iff it lies in [min - 0.005, max + 0.005) |
| `Classifier.ExampleTooFast` | fix-activity-type.js:18-25 | a run at 5 m/s over 10000 m with maximum 15 becomes Ride named 10 km Ride, with id 1 |
| `Classifier.ExampleTooSlow` | fix-activity-type.js:29-36 | a run at 1 m/s over 10000 m with minimum 4 and maximum 15 becomes Walk named 10 km Walk |
| `Fetcher.FetchAllActivities` | fix-activity-type.js:70-97 | the number k of requests is the first page that errs or is empty; request i asks for page i with the same before, after 0 and 200 per page; an error on page k gives a fetch error with its status and no list; otherwise the result is the concatenation of pages 1..k in order |
| `Fetcher.ConcatPrefix` | fix-activity-type.js:89 | the accumulator only grows at the end: the pages fetched earlier are a prefix of the result |
| `Fetcher.ConcatHolds` | fix-activity-type.js:89 | an activity is in the result iff one of the fetched pages holds it |
| `Fetcher.ConcatLength` | fix-activity-type.js:89 | the result's length is the sum of the page sizes |
| `Fetcher.FirstStopUnique` | fix-activity-type.js:78-94 | the first stopping page is unique, so the request count is determined by the service's answers |
| `Fetcher.LastPageEmpty` | fix-activity-type.js:88-94 | on success the final page is empty and adds nothing, and every earlier page is non-empty |
| `Updater.UpdateActivity` | fix-activity-type.js:55-68 | an update passes iff the status is in 200..299; otherwise it fails with an update error carrying that status |
| `Updater.PlannedUpdatesPrefix` | fix-activity-type.js:10-41 | the updates decided for a prefix of the activities are a prefix of those decided for all of them |
| `Updater.PlannedUpdatesFromRuns` | fix-activity-type.js:11-36 | every decided update is the decision for some run in the list with the same id |
| `Updater.PlannedUpdatesAppend` | fix-activity-type.js:10-41 | activities are decided independently: the updates for xs + ys are those for xs followed by those for ys |
| `Updater.ProcessActivities` | fix-activity-type.js:10-41 | the updates sent are a prefix of the decided updates, in order; all but the last were accepted; it passes iff it sent every decided update and all were accepted; on failure the last one sent was refused and the error carries its status, and no later activity gets an update |
| `Updater.FixActivityTypes` | fix-activity-type.js:6-41 | a failed fetch aborts with the fetch error before any update is sent; otherwise the updates sent are a prefix of those decided for the fetched list, all but the last were accepted, it passes iff every decided update was sent and accepted, and on failure the last one sent was refused and the error carries its status |

## Left out

- HTTP transport, URLs, headers and request options (`getStravaRequestOptions`, `getStravaUrl`): the listing and update endpoints are functions from the request to its status and decoded body.
- A fetch that rejects (a network error) and a `response.json()` that throws on a malformed body: the model has only non-ok statuses as failures.
- The service is modelled as a fixed function of the request. A service whose answers change between calls is not captured.
- `logNotOk` and every `log.*` call: they are diagnostics with no effect on the results. The thrown errors carry only a message; the status kept in `FetchFailed` and `UpdateFailed` stands for the status that `logNotOk` writes to the log.
- Loading `config.js` and the token: the two thresholds are parameters and the token is not modelled.
- `Date.now()` and the `Math.floor(... / 1000)` of the timestamp: `before` is an arbitrary input.
- IEEE-754 double arithmetic of `* 3.6`, `/ 10`, `/ 100` and `* 100`: exact reals are used instead.
- Rendering the km number as text inside the name: the name is the pair (km value, type).
- `async`/`await`: every call is sequential, so there is nothing concurrent to model.
- Rounding.MathRound: matches JavaScript's `Math.round` for the inputs here; the special cases of `-0`, `NaN` and infinities are not modelled.
- Fetcher.FetchAllActivities: requires a page that stops the paging; if the service never answers with an error or an empty page, the script loops forever, and that case is not modelled.
