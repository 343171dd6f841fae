# Weather service core, modelled in Dafny

This project models the decision logic of the weather lookup app's service
module (`src/services/weatherService.ts`). The model has three parts:

- **Forecast aggregation** (`getDailyForecast`), in `daily_forecast.dfy`. The
  input is the provider's time-ordered list of 3-hourly samples. The
  aggregator walks it once. It skips every sample whose local date is today.
  Each remaining sample is keyed by its UTC calendar day. For each new day,
  while fewer than five days are kept, it keeps one sample: the first sample
  of that UTC day, anywhere in the list, whose local hour is between 12 and
  15; if there is none, the first sample of that UTC day.
  `GetDailyForecast` is a method with the source's loop, its `days` set and
  its filter-then-find. Its result is proved equal to `Expected`, an
  index-based reference definition. The lemmas about `Expected` state what
  the result promises.
- **Presentation helpers** (`getWeatherGradientClass`, `isNightTime`), in
  `presentation.dfy`, as functions.
- **Response projections**, in `weather_types.dfy`: the `list.map` in
  `getForecast` and the record built in `getCurrentWeather`, as functions
  over decoded response shapes (`RawForecast`, `RawCurrent`).

Time is modelled with integers and kept in the three references the code
uses. `dt` is Unix seconds. The day key is `UtcDay(dt) = dt / 86400`, which
is what `toISOString().split('T')[0]` names. "Today" and the skip test use
`LocalDay(dt) = (dt + offset) / 86400`. The noon window uses
`LocalHour(dt) = ((dt + offset) % 86400) / 3600`. The host's time zone is
modelled as a fixed `offset` in seconds, and the clock as a `today`
parameter, the local day number of the current date. Dafny's division by a
positive constant rounds down, as `Date` does for times before the epoch.
The ISO date string used as the key is modelled by the day number it names;
the two correspond one to one.

## Behaviour of the code worth noting

The comment `// Skip today` (src/services/weatherService.ts:152) says that
samples from today are left out. The code tests "today" on the local date,
but it keys days by their UTC date. It then searches for the noon sample
among every sample of that UTC day, including the ones it skipped. So a
sample whose local date is today can still be reported.
`DailyForecast.TodaysSampleCanBeReported` shows a concrete case, ten hours
east of UTC. The model follows the code.

## Model

| member | source | states |
|---|---|---|
| `WeatherTypes.ProjectItem` | src/services/weatherService.ts:70-81 | a forecast sample takes its measurements, time and first condition from the entry, and its city and country from the response's top-level header |
| `WeatherTypes.ProjectList` | src/services/weatherService.ts:70-81 | mapping the entries fails exactly when some entry has no condition; otherwise the result has the same length and the i-th sample is the projection of the i-th entry |
| `WeatherTypes.ProcessForecast` | src/services/weatherService.ts:69-86 | the forecast keeps the length and order of the list; the i-th sample is the projection of the i-th entry, stamped with the header's city and country; the header is copied; it fails exactly when some entry has no condition |
| `WeatherTypes.ProjectCurrent` | src/services/weatherService.ts:38-49 | every field of the current sample comes from the response: name, country and time, the four measurements, and the first condition's description, icon and category; it fails exactly when there is no condition |
| `Presentation.GetWeatherGradientClass` | src/services/weatherService.ts:95-117 | the night tag is given exactly when it is night; by day each tag is given exactly for its lower-cased categories: rain for rain and drizzle, mist for mist, fog and haze, clouds, thunderstorm and snow for their own names, and clear for "clear" and for every unrecognised category |
| `Presentation.GradientIgnoresCase` | src/services/weatherService.ts:98 | the tag depends on the category only through its lower-cased form |
| `Presentation.GradientCollapses` | src/services/weatherService.ts:99-115 | rain and drizzle share a tag, mist, fog and haze share a tag, and an unrecognised category gets the same tag as "clear", by day and by night |
| `Presentation.GradientExamples` | src/services/weatherService.ts:96-105 | "Rain" by day gives the rain tag; "Clear" by night gives the night tag |
| `Presentation.Includes` | src/services/weatherService.ts:120 | `includes` holds exactly when the needle occurs at some position of the haystack |
| `Presentation.IncludesChar` | src/services/weatherService.ts:120 | `includes` with a one-character needle holds exactly when the character occurs in the string |
| `Presentation.IsNightTime` | src/services/weatherService.ts:119-121 | an icon code is a night code exactly when it contains 'n' |
| `Presentation.NightTimeExamples` | src/services/weatherService.ts:119-121 | "10n" is a night code and "10d" is not |
| `DailyForecast.UtcDay` | src/services/weatherService.ts:149-150 | the day key is the UTC day whose midnight-to-midnight span contains the timestamp |
| `DailyForecast.LocalDay` | src/services/weatherService.ts:143 | the local day is the one whose local midnight-to-midnight span contains the timestamp; with no offset it is the UTC day |
| `DailyForecast.IsToday` | src/services/weatherService.ts:153 | a sample is today's exactly when it lies between today's local midnight and the next one |
| `DailyForecast.LocalHour` | src/services/weatherService.ts:166 | the local hour is between 0 and 23 and counts the whole hours since local midnight |
| `DailyForecast.InNoonWindow` | src/services/weatherService.ts:167 | a sample is in the noon window exactly when it lies between local 12:00 and local 16:00, excluded |
| `DailyForecast.DayForecasts` | src/services/weatherService.ts:159-162 | the filter keeps exactly the samples of the given UTC day and is never longer than the input |
| `DailyForecast.FindNoon` | src/services/weatherService.ts:165-168 | the find returns the first member of the list in the noon window, and returns nothing exactly when no member is in the window |
| `DailyForecast.Representative` | src/services/weatherService.ts:159-176 | a day's reference sample exists exactly when the input has a sample of that UTC day, and it is an input sample of that day |
| `DailyForecast.FindNoonMatchesReference` | src/services/weatherService.ts:159-168 | filtering by day and then finding the first noon-window sample yields the first sample of that day in the noon window across the whole input, or nothing when there is none |
| `DailyForecast.FirstOfDayMatchesReference` | src/services/weatherService.ts:173-176 | the first sample of the filtered list is the first sample of that UTC day in the input |
| `DailyForecast.RepresentativeIsSelected` | src/services/weatherService.ts:164-176 | for a day present in the input, the noon branch or the fallback branch yields the reference sample; the fallback list is never empty, so one branch always fires |
| `DailyForecast.GetDailyForecast` | src/services/weatherService.ts:141-182 | the loop returns `Expected`: at most five samples, each one from the input, no two with the same UTC day |
| `DailyForecast.Expected` | src/services/weatherService.ts:157 | never more than five samples |
| `DailyForecast.StartedDaysStep` | src/services/weatherService.ts:148-157 | one more sample adds its UTC day to the started days exactly when its local date is not today and the day is new |
| `DailyForecast.SkipStep` | src/services/weatherService.ts:152-157 | a sample from today, or of a day already kept, or met when five days are kept, leaves the result and the kept days unchanged and keeps the loop invariant |
| `DailyForecast.PushStep` | src/services/weatherService.ts:157-177 | keeping the reference sample of a new non-today day while fewer than five are kept extends the result by that sample and the kept days by its day, keeping the loop invariant |
| `DailyForecast.ProgressDone` | src/services/weatherService.ts:179-181 | once every sample is visited, the accumulated result is `Expected` |
| `DailyForecast.StartedDaysMembership` | src/services/weatherService.ts:148-157 | a day is started exactly when some sample of that UTC day has a local date other than today |
| `DailyForecast.StartedDaysDistinct` | src/services/weatherService.ts:146-157 | no day is started twice |
| `DailyForecast.StartedDaysOrdered` | src/services/weatherService.ts:148-157 | days are started in the order of their first non-today sample |
| `DailyForecast.ExpectedFromInput` | src/services/weatherService.ts:159-176 | every reported sample is an element of the input |
| `DailyForecast.ExpectedDistinctDays` | src/services/weatherService.ts:146-177 | the k-th reported sample has the k-th started UTC day, so no two reported samples share a UTC day |
| `DailyForecast.ExpectedPrefersNoon` | src/services/weatherService.ts:164-176 | a reported sample is the first input sample of its UTC day in the noon window when one exists, and otherwise the first input sample of its UTC day |
| `DailyForecast.ExpectedDaysStarted` | src/services/weatherService.ts:148-157 | every reported day is the UTC day of some sample whose local date is not today |
| `DailyForecast.ExpectedEmpty` | src/services/weatherService.ts:148-155 | the result is empty exactly when every sample's local date is today, so the empty input gives the empty result |
| `DailyForecast.ExpectedComplete` | src/services/weatherService.ts:157 | with fewer than five results, the UTC day of every non-today sample is reported |
| `DailyForecast.ExpectedInStartOrder` | src/services/weatherService.ts:148-157 | results follow the order in which their days are first reached by a non-today sample |
| `DailyForecast.TodaysSampleCanBeReported` | src/services/weatherService.ts:143-168 | ten hours east of UTC, the input [02:00 UTC, 15:00 UTC] of day 0 on local day 0 reports the 02:00 sample, whose local date is today |

## Left out

- Network access: the `fetch` calls, URL building, the API key and base URL constants, the `response.ok` check, `response.json()` and the logging and rethrowing in the `catch` blocks. A response enters the model already decoded into `RawForecast` or `RawCurrent`.
- `getFormattedDate`: locale-dependent date formatting through `Intl`.
- The React components: rendering, hook state, notifications and the icon switch. Overlapping searches in the app are a concurrency matter outside the service.
- Numbers: temperature, feels-like, humidity and wind speed are carried as `real` values and never interpreted. No property depends on them.
- `Date` semantics: daylight-saving changes and the host's time zone are replaced by a fixed `offset`. The current date is the `today` parameter. `toISOString` throws for times beyond the range of `Date`; the model has no such limit.
- Presentation.ToLower: lower-cases only the ASCII letters A-Z, whereas `toLowerCase` also folds other Unicode letters. Every category the switch recognises is ASCII.
- Error reporting: any non-ok response throws one generic `Error` (src/services/weatherService.ts:32-34, 62-64), and the `catch` blocks log and rethrow (50-53, 89-92). This is network handling and is not modelled. The only failure modelled is the one the projections themselves raise, reading the first condition of an empty `weather` array.
- JSON fields that are missing or of the wrong type: the decoded shapes always carry every field. Only an empty `weather` array is modelled as a failure.
