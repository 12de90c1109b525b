# Fitness tracker report pipeline, modelled in Dafny

This project models the report pipeline of a small fitness tracker, and proves properties of the model. The pipeline has four parts:

- **Statistics calculators.** They turn a user's workouts, meals and weight logs in a date window into statistics.
- **Summary.** It lays those statistics out as report lines.
- **Report service.** It resolves the user, builds the report and keeps it in a cache (the cache-aside pattern).
- **Request schemas.** They validate the records before they are stored.

Python `float`s are modelled as exact `real`s. Python's `round(x, n)` is modelled as exact half-to-even rounding at `n` decimals. Dates follow Python's proleptic Gregorian `date`: `toordinal`, `isoformat` and the lexicographic order.

Files:

- `wrappers.dfy`: `Option` and `Result`.
- `text.dfy`: ASCII string helpers (`lower`, `replace`, `isalnum`, `startswith`).
- `dates.dfy`: dates, ordinals, ISO text and naive date-times.
- `folds.dfy`: comprehensions, sums and `Counter` counts, with order-independence lemmas.
- `rounding.dfy`: half-even rounding.
- `records.dfy`: the records, and the store queries over an inclusive date window.
- `stats.dfy`: the three calculators.
- `summary.dfy`: the summary lines.
- `cache_service.dfy`: the cache service, a class over a key/value map.
- `report_service.dfy`: `_build_report` and the class around it.
- `schemas.dfy`: the validators.

Where the model and the intended design differ, the model follows the code, with one exception, the meal-time check:

- **Cache key.** The key is built from the identifier the caller passed (services/report_service.py:38-42), not from the resolved user.
  - `ReportService.ReportSameForBothForms` proves that the identity and the username of a user give the same report.
  - `ReportService.BothFormsCachedApart` proves that they are cached under different keys, and that invalidating by one form leaves the other form's report cached.
  - The command line files its records under the user's identity (cli/main.py:135, 365, 604) and generates reports by identity (cli/main.py:666).
  - `_build_report` queries the records by the resolved username (services/report_service.py:88-93). So records logged through the command line never reach a report. `ReportService.IdentityFiledWorkoutUnreported` proves this for workouts: adding a workout filed under the identity leaves the report unchanged.
- **Window check.** Only the command line checks `start <= end` (cli/main.py:661). The model takes it as a precondition of report building.
- **Meal times.** The comment at models/schemas.py:134-135 says aware meal times are handled, and line 136 picks the UTC clock for them. The code refuses every aware time (see Findings).
  - `Schemas.TimeNotFutureAsWritten` and `Schemas.UpdateTimeNotFutureAsWritten` model the code.
  - The composite validators `Schemas.ValidateMeal` and `Schemas.ValidateMealUpdate` use the corrected checks, `Schemas.TimeNotFuture` and `Schemas.UpdateTimeNotFuture`. They therefore accept an aware time whose UTC instant is past, which the code refuses.

## Model

| member | source | states |
|---|---|---|
| `Stats.CalculateWorkoutStats` | services/report_service.py:131-156 | No workouts give the all-zero shape. Otherwise: the count is the number of workouts; the minutes are the sum of the durations; the average lies within 0.05 of minutes/count; each intensity count is the number of workouts at that level. |
| `Stats.TypeCountsSpec` | services/report_service.py:144-155 | The type histogram's keys are exactly the types present, and each value is the number of workouts of that type. |
| `Stats.TypeCountsTotal` | services/report_service.py:144-155 | The type histogram's counts add up to the number of workouts. |
| `Stats.WorkoutStatsCounts` | services/report_service.py:143-155 | low + medium + high is at most the total, and equals it when every intensity is one of the three. The histogram's keys, counts and total are as in the two rows above. |
| `Stats.WorkoutStatsPermutation` | services/report_service.py:131-156 | The workout statistics do not depend on the order of the workouts. |
| `Stats.CalculateNutritionStats` | services/report_service.py:158-195 | No meals give the zero shape. Otherwise: the count and the calorie sum are exact; each total macro lies within 0.05 of its sum; each daily average lies within 0.05 of its sum divided by the inclusive day count. |
| `Stats.SingleDayNutrition` | services/report_service.py:179-184 | Over a one-day window, the daily calorie average is the calorie total. |
| `Stats.NutritionStatsPermutation` | services/report_service.py:158-195 | The nutrition statistics do not depend on the order of the meals. |
| `Stats.Insert` | services/report_service.py:209-212 | Inserting into a date-sorted list keeps it sorted and adds exactly that one log. |
| `Stats.SortByDate` | services/report_service.py:209-212 | The result is sorted by date and is a permutation of the input. |
| `Stats.CalculateWeightTrends` | services/report_service.py:197-231 | The entry count is the number of logs. The trend is "no data" exactly when there are no logs, and then every field is absent. Otherwise start, end and change are present, and the trend is decreasing, increasing or stable exactly as the change is negative, positive or zero. |
| `Stats.SortedEnds` | services/report_service.py:209-215 | With one log per date, the first sorted entry is the earliest log and the last is the latest. |
| `Stats.WeightTrendEndpoints` | services/report_service.py:208-231 | With one log per date: start and end are the rounded weights of the earliest and latest logs; the change is their rounded difference; the trend is increasing or decreasing exactly when the weights differ by more than 0.005. |
| `Stats.SingleWeightIsStable` | services/report_service.py:214-223 | A single measurement gives one entry, equal start and end, zero change and a stable trend. |
| `Rounding.Round1` | services/report_service.py:149 | `round(x, 1)` lies within 0.05 of `x`. |
| `Rounding.Round2` | services/report_service.py:216 | `round(x, 2)` lies within 0.005 of `x`. |
| `Rounding.Round2Sign` | services/report_service.py:216-223 | `round(x, 2)` is positive exactly when x > 0.005, negative exactly when x < -0.005, and zero otherwise. |
| `Dates.DaysInWindow` | services/report_service.py:179 | `(end - start).days + 1` is at least 1, and is 1 when start and end are the same day. |
| `Summary.GenerateSummary` | services/report_service.py:233-315 | The summary has at least eight lines. It opens with the header for the user and window, then the period line with a day count of at least 1. |
| `Summary.EmptySectionLines` | services/report_service.py:250-297 | Each "nothing logged" line (workouts, meals, weight) appears exactly when its count is zero. |
| `Summary.TargetComparison` | services/report_service.py:288-295 | The target line is a single line. It reads above when end - target > 0.005, below (with a positive distance) when it is < -0.005, and reached otherwise. |
| `Summary.WeightSectionShape` | services/report_service.py:276-297 | The target line appears exactly when there are measurements and a truthy target. The change line shows the change, with a plus sign exactly on an increasing trend whenever the trend agrees with the change's sign. No measurements give only the "no weight" line. |
| `Summary.SummaryTargetLine` | services/report_service.py:276-297 | In the whole summary, the target comparison appears exactly when there are measurements and a truthy target. |
| `Summary.SummaryWeeklyLines` | services/report_service.py:299-313 | In the whole summary, the weekly section appears exactly when a truthy weekly goal is set and there were workouts. It says "achieved" exactly when the weekly average reaches the goal. |
| `Summary.ChangeSignMatchesTrend` | services/report_service.py:281-283 | For computed trends, the plus sign appears exactly on an increasing trend. |
| `Summary.WeeklyGoalShape` | services/report_service.py:299-313 | The weekly section appears exactly when a truthy weekly goal is set and there were workouts. It says "achieved" exactly when minutes/(days/7) reaches the goal. Otherwise the shortfall is non-negative and within 0.05 of goal - average. |
| `Records.GetUserById` | services/db_service.py:105-121 | Finds a user exactly when some user has that identity. |
| `Records.GetUserByUsername` | services/db_service.py:90-103 | Finds a user exactly when some user's username is the lowered name. |
| `Records.GetWorkouts` | services/db_service.py:165-200 | Returns exactly the user's workouts dated inside the inclusive window. |
| `Records.GetMeals` | services/db_service.py:268-303 | Returns exactly the user's meals eaten on a day inside the inclusive window. |
| `Records.GetWeightLogs` | services/db_service.py:375-410 | Returns exactly the user's weight logs dated inside the inclusive window. |
| `ReportService.ResolveUser` | services/report_service.py:80-85 | A user is found exactly when one matches by identity or by lowered username. The identity match wins. |
| `ReportService.BuildReport` | services/report_service.py:63-129 | Fails with "user not found" exactly when the user cannot be resolved. Otherwise the report carries: the resolved user's details; the ISO window and its day count; the three statistics over the resolved username's records; the summary generated from that user and those statistics; the not-from-cache flag. |
| `ReportService.ReportCountsUserRecords` | services/report_service.py:87-117 | The report's counts are the numbers of the resolved user's records in the window. Each "nothing logged" line appears exactly when no such record exists. |
| `ReportService.ReportGoalLines` | services/report_service.py:105-112 | A built report's summary has the target comparison exactly when the user has weight logs in the window and a truthy target. It has the weekly section exactly when the user has a truthy weekly goal and workouts in the window. |
| `ReportService.IdentityFiledWorkoutUnreported` | services/report_service.py:88-93 | A workout filed under the user's identity (when it differs from the username) does not change the report, because the queries go by username. |
| `ReportService.ResolveBothForms` | services/report_service.py:80-85 | In a store with unique identities and usernames, both forms of a user resolve to that user. |
| `ReportService.ReportSameForBothForms` | services/report_service.py:63-129 | The report built from a user's identity equals the one built from the username. |
| `ReportService.BothFormsCachedApart` | services/report_service.py:37-59 | When identity and username differ, their cache keys differ, and invalidating by identity does not match the username's key. |
| `ReportService.ReportKeyInjective` | services/report_service.py:38-42 | Different (identifier, start, end) requests get different cache keys. |
| `ReportService.ReportService.GenerateReport` | services/report_service.py:17-61 | With `use_cache` and a cached entry, returns it marked from-cache and leaves the cache alone. Otherwise returns the built report, marked fresh, and writes it back with the default TTL exactly when `use_cache` holds, the report was built, the client is live and the TTL is positive. |
| `ReportService.ReportService.InvalidateUserCache` | services/report_service.py:317-327 | Returns and does exactly what the cache's per-user invalidation does. |
| `ReportService.ReportService.RepeatReport` | services/report_service.py:37-61 | With a live cache and a positive TTL, asking twice gives the first report back, from the cache. |
| `ReportService.ReportService.ReportAfterInvalidation` | services/report_service.py:317-327 | After invalidating by an identifier, the next report for it is built from the store. |
| `Cache.ReportCacheKey` | services/cache_service.py:134-146 | The key is `report:{user}:{start}:{end}`. It starts with that user's invalidation prefix and ends with the end date. |
| `Cache.ReportCacheKeyInjective` | services/cache_service.py:134-146 | With fixed-width date texts, equal keys mean equal user, start and end. |
| `Cache.PrefixSeparatesUsers` | services/cache_service.py:122-146 | For identifiers without ':', one user's invalidation pattern never matches another user's report keys. |
| `Cache.PrefixMatchesOnlyOwnKeys` | services/cache_service.py:122-146 | For identifiers without ':', the pattern matches a report key exactly when the identifiers are equal. |
| `Cache.CacheService.constructor` | services/cache_service.py:11-21 | Starts with no client. The default TTL is the argument when it is truthy, else the configured one. |
| `Cache.CacheService.Connect` | services/cache_service.py:23-30 | The client is set whether or not the server answers. The call fails exactly when it does not answer. |
| `Cache.CacheService.Disconnect` | services/cache_service.py:32-36 | Afterwards there is no client. |
| `Cache.CacheService.Get` | services/cache_service.py:38-57 | Returns a value exactly when the client is live and the key is present, and then the stored value. |
| `Cache.CacheService.Set` | services/cache_service.py:59-80 | Succeeds exactly when the client is live and the effective TTL is positive. It then stores the value with that TTL under the key; otherwise nothing changes. |
| `Cache.CacheService.Delete` | services/cache_service.py:82-99 | Succeeds exactly when the client is live, present key or not. It then removes the key; otherwise nothing changes. |
| `Cache.CacheService.DeletePattern` | services/cache_service.py:101-120 | With a live client: removes exactly the keys starting with the prefix, returns how many there were, and no remaining key matches. Otherwise returns 0 and changes nothing. |
| `Cache.CacheService.InvalidateUserReports` | services/cache_service.py:122-132 | With a live client, removes every key under `report:{user}:` and no report key for that user remains. Otherwise returns 0 and changes nothing. |
| `Cache.SetThenGet` | services/cache_service.py:38-80 | With a live client, a value set with a positive TTL is read back. |
| `Schemas.ValidateUsername` | models/schemas.py:38-49 | Accepts exactly the 3..50-character names that are ASCII-alphanumeric once '_' and '-' are removed. Returns the name lowered, same length, character by character. Names the failing rule otherwise. |
| `Schemas.UsernameCaseInsensitive` | models/schemas.py:44-49 | Names that agree once lowered get the same verdict and the same result. |
| `Schemas.AcceptedUsernameCharacters` | models/schemas.py:44-49 | An accepted username consists of ASCII letters, digits, '_' and '-' only, and has at least one letter or digit. |
| `Schemas.UsernameIdempotent` | models/schemas.py:44-49 | A validated username validates to itself. |
| `Schemas.EmailLowercase` | models/schemas.py:51-54 | The address comes back lowered, character by character, and stays lowered. |
| `Schemas.GoalErrors` | models/schemas.py:23-26 | The goal errors are empty exactly when both bounds hold. They name exactly the goal fields whose bound fails. |
| `Schemas.ValidateGoals` | models/schemas.py:23-26 | Accepts exactly a target weight above 0 and a weekly goal of at least 0, each when given. Flags exactly the failing field. |
| `Schemas.ValidGoalsTruthiness` | models/schemas.py:25-26 | For accepted goals, the summary's truthiness test on the target is presence. A weekly goal of 0 is present but falsy. |
| `Schemas.ValidateUser` | models/schemas.py:36-54 | Accepts exactly a valid username, a full name of at most 100 characters and valid goals. Returns the username and e-mail lowered. Flags exactly the failing username, full name, target weight and weekly goal. |
| `Schemas.DateNotFuture` | models/schemas.py:82-87 | Accepts a date exactly when its ordinal is not after today's, so today itself is accepted. |
| `Schemas.ValidateWorkout` | models/schemas.py:74-87 | Accepts exactly: a type of 1..50 characters, a positive duration, one of the three intensities, a date not after today, notes of at most 500 characters. Flags exactly the failing fields. |
| `Schemas.ValidatedWorkoutStats` | models/schemas.py:76-78 | Over accepted workouts, low + medium + high equals the total, and total minutes are at least the count. |
| `Schemas.WorkoutErrors` | models/schemas.py:74-87 | The workout errors are empty exactly when every field check passes. They name exactly the fields whose check fails. |
| `Schemas.ValidateWorkoutUpdate` | models/schemas.py:191-204 | Every field may be omitted. A given field obeys the creation bound, and an absent date skips the future check. |
| `Schemas.WorkoutUpdateAgreesWithCreate` | models/schemas.py:191-204 | An update giving every field is accepted exactly when the workout is. The empty update is accepted. |
| `Schemas.ValidateWeightLog` | models/schemas.py:160-170 | Accepts exactly a weight in (0, 500] dated no later than today. Flags exactly the failing fields. |
| `Schemas.TimeNotFutureAsWritten` | models/schemas.py:131-139 | As written: accepts only naive times, exactly those not after the local clock. |
| `Schemas.TimeNotFuture` | models/schemas.py:131-139 | Corrected: a naive time is accepted exactly when it is not after the local clock, and the time is returned unchanged. |
| `Schemas.TimeNotFutureByInstant` | models/schemas.py:131-139 | Corrected: accepts exactly the times whose instant is not after now, naive times on the local clock and aware times by their UTC instant on the UTC clock. |
| `Schemas.AwareMealTimesRefused` | models/schemas.py:131-139 | As written, every aware time is refused, including each past one that the corrected check accepts. |
| `Schemas.NaiveMealTimesAgree` | models/schemas.py:131-139 | Both checks agree on naive times. |
| `Schemas.AwareMealTimeExample` | models/schemas.py:131-139 | Noon UTC on 1 January 2024, checked on 1 June 2024: refused as written, accepted by the corrected check. |
| `Schemas.MacroErrors` | models/schemas.py:108-112 | Reports exactly the negative macronutrients. |
| `Schemas.ValidateMeal` | models/schemas.py:123-139 | Accepts exactly: a name of 1..100 characters, positive calories, non-negative macros, a time passing the corrected check, notes of at most 500 characters. |
| `Schemas.MealErrorsNameFields` | models/schemas.py:123-139 | A rejected meal flags exactly the fields whose constraints fail. |
| `Schemas.UpdateTimeNotFutureAsWritten` | models/schemas.py:215-220 | As written: an absent time passes, an aware time never passes, and a naive time passes exactly when it is not after the UTC clock. |
| `Schemas.UpdateTimeNotFuture` | models/schemas.py:215-220 | Corrected: accepts an absent time, a naive time not after the UTC clock, or an aware time whose UTC instant is not after it. |
| `Schemas.NaiveUpdateTimesAgree` | models/schemas.py:215-220 | The update check as written and the corrected one agree on absent and naive times. |
| `Schemas.AwareUpdateTimesRefused` | models/schemas.py:215-220 | As written, the update check refuses every aware time, including each past one that the corrected check accepts. |
| `Schemas.ValidateMealUpdate` | models/schemas.py:207-220 | Every field may be omitted, and a given field obeys the creation bound. Flags the time exactly when the corrected update check fails. |

## Left out

- Redis itself is not modelled: connection URLs, sockets, expiry of entries after their TTL, and JSON serialisation (`default=str`). A cached report is the report value itself.
- `delete_pattern` is modelled as a prefix match (`prefix*`). Other glob characters in an identifier (`?`, `[`, `*`) are not given their meaning.
- Network errors are not modelled. The only failing server the model has is a client whose server does not answer, as left by a failed `connect`. A `Redis.from_url` that raises before assigning the client is not modelled.
- Cache.CacheService.Set: a server that refuses a non-positive TTL is assumed; that is Redis's own rule for `SETEX`.
- MongoDB (services/db_service.py) is not modelled. The store is an in-memory set of record sequences, filtered in natural order by owner and inclusive window. The store's newest-first sort is not modelled; the permutation lemmas show that the statistics do not depend on it.
- Stats.WeightTrendEndpoints: assumes at most one weight log per user and date, the store's unique index (services/db_service.py:63).
- ReportService.ReportSameForBothForms: assumes unique identities and lowercase unique usernames, and that no username equals any user's identity. Identities are 24-hex-digit strings, which a username could in principle spell.
- Binary floating point is not modelled: sums and divisions are exact reals, and `round` is exact half-to-even. Float-to-text formatting in the summary is left out; the summary is a sequence of typed lines, not the joined text.
- Stats.CalculateWorkoutStats: the average is stated within 0.05 of the exact quotient, not as the binary float Python prints.
- Schemas.ValidateMeal / Schemas.ValidateMealUpdate: they use the corrected time checks. The code refuses every timezone-aware meal time; these validators accept one whose UTC instant is not after now. The code's behaviour is stated by `Schemas.TimeNotFutureAsWritten` and `Schemas.UpdateTimeNotFutureAsWritten`.
- Stats.SortByDate: it does not state which order it leaves logs of the same date in; Python's sort keeps their input order. The weight trend does not depend on it under the one-log-per-date index.
- Intensity strings read back from the store are not re-checked, so the breakdown may miss workouts with other intensities, as in the code.
- The clocks (`date.today()`, `datetime.now()`, `datetime.utcnow()`) are parameters.
- Unicode is not modelled. Python's Unicode-aware `isalnum` and `lower` are restricted to ASCII letters and digits, so a non-ASCII username that Python accepts is refused by the model.
- Pydantic's type coercion and the e-mail syntax check of `EmailStr` are not modelled; only the lowercasing is. The `dob` field has no constraint and is omitted, and `goals: None` is not modelled (goals are always a record of two optional fields).
- The race between a report computation and a concurrent invalidation is concurrency and is not modelled.
- The command line and web layers (cli/main.py, web/app.py), config.py and setup.py are not part of this model.

## Findings

| source | as written | input that shows it | evidently intended | confidence | as-written member | corrected member |
|---|---|---|---|---|---|---|
| models/schemas.py:136-137 | An aware meal time is compared with the naive `datetime.utcnow()`. Python raises `TypeError` on that comparison, so every timezone-aware meal time is refused. | `time = 2024-01-01T12:00:00+00:00`, validated on 1 June 2024 | Compare the aware time's UTC instant with the UTC clock, as the comment on lines 134-135 and the clock chosen on line 136 intend | high, not executed | `Schemas.TimeNotFutureAsWritten` (shown by `Schemas.AwareMealTimesRefused`, `Schemas.AwareMealTimeExample`) | `Schemas.TimeNotFuture` (proved by `Schemas.TimeNotFutureByInstant`, used by `Schemas.ValidateMeal`) |
| models/schemas.py:218 | The update check compares every given time with the naive `datetime.utcnow()`, so an aware time raises `TypeError` again. | `time = 2024-01-01T12:00:00+00:00` in a meal update | Compare an aware time by its UTC instant | high, not executed | `Schemas.UpdateTimeNotFutureAsWritten` (shown by `Schemas.AwareUpdateTimesRefused`) | `Schemas.UpdateTimeNotFuture` (used by `Schemas.ValidateMealUpdate`) |
