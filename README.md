# Personal trainer: workout planning, daily targets and meal estimates in Dafny

This project models the decision logic of a personal-fitness web
application. A user profile (age, weight, height, goal, level, weekly
frequency) becomes three things:

- a weekly workout plan, written into a `workouts` table keyed by
  (user, epoch week, weekday) and read back on that weekday of the same
  epoch week;
- a daily calorie and protein target (Mifflin–St Jeor with a fixed 1.2
  activity factor);
- a calorie and protein estimate of a meal, made by matching the vision
  service's description of a photo against a fixed table of 14 food
  keywords, and a day's totals over the logged meals.

The two library files `src/lib/workout-generator.ts` and
`src/lib/meal-analyzer.ts` are modelled, with the records of
`src/lib/types.ts`.

Modules:

- `Types` (`types.dfy`) holds goals, levels, profiles, catalog entries,
  planned exercises and workout rows. `Wrappers` holds `Option` and
  `Result`.
- `WorkoutPlan` (`workout_plan.dfy`) holds the pure helpers of the
  generator: the day schedule, the exercise selection, the sets/reps/rest
  tables, the workout name, the epoch week and today's weekday number.
- `DailyGoals` (`daily_goals.dfy`) holds `calculateDailyGoals`. `JsMath`
  (`js_math.dfy`) holds `Math.round` over exact reals, written
  `Floor(x + 0.5)`.
- `WorkoutStore` (`workout_store.dfy`) is the `workouts` table. It is a class
  whose `rows` field is a map from key to row. `GenerateWeeklyWorkout` is the
  generator's `for` loop of upserts. `TodaysWorkout` is the reader. Both are
  specified by functions on maps, and lemmas prove what a run writes,
  idempotence, and that a read finds what a run wrote.
- `MealAnalyzer` (`meal_analyzer.dfy`) models `processAnalysisResult`.
  `ScanTable` is the `forEach` over the keyword table. It is proved against
  functions over the table's prefixes, and a fallback covers descriptions
  that match no keyword.
- `DailyStats` (`daily_stats.dfy`) models the `reduce` folds of
  `getDailyStats`. `Sequences` (`sequences.dfy`) holds subsequence lemmas
  that both the exercise selection and the keyword scan use.

In these places the code behaves differently from what one might expect,
and the model follows the code:

- A failed upsert does not stop the generator. The database client reports
  the failure in its return value and does not throw, and the loop never
  inspects that value. Only that day's row goes unwritten, and the loop goes
  on with the remaining days. The `rejected` parameter is the set of days
  whose write the store refuses.
- A frequency of 4, 5 or 6 still yields only Monday, Wednesday and Friday.
  The profile form offers 3 to 6 days.
- The profile form also stores the level `avancado`. The generator's tables
  treat it like `intermediario`.
- The week number is `Math.floor(now / 604800000)`, counted from
  1 January 1970, which was a Thursday. So the weeks the store uses run
  from Thursday 00:00 UTC to the next Thursday, not Monday to Sunday. A
  plan generated on a Monday, Tuesday or Wednesday is filed under a week
  that has ended by Friday, so a Friday read finds nothing unless the
  generator runs again from Thursday on. `WorkoutStore.GenerateThenRead`
  promises a read only within the same epoch week
  (`WorkoutPlan.EpochWeeksStartThursday`).
- For 70 kg, 175 cm, 30 years and maintenance, the formula gives 1978.5
  kcal, which rounds up to 1979, and 126 g of protein
  (`DailyGoals.MaintenanceExample`).

## Model

| member | source | states |
|---|---|---|
| `WorkoutPlan.WorkoutDays` | src/lib/workout-generator.ts:55-58 | the days are a prefix of [1,3,5], at most 3 long and strictly increasing. For a frequency of 0..3 the length is the frequency. For every frequency of 3 or more the result is exactly [1,3,5]. A negative frequency counts from the back |
| `WorkoutPlan.Matching` | src/lib/workout-generator.ts:71-72 | the filter keeps exactly the catalog entries that share a muscle with the day's group: every kept entry is in the catalog and matches, and every matching entry is kept |
| `WorkoutPlan.SelectExercisesForDay` | src/lib/workout-generator.ts:61-74 | at most 4 exercises, each sharing a muscle with the day's focus group (1: peito/tríceps, 3: costas/bíceps, 5: pernas/ombros, other: peito/costas). They are exactly the first min(4, #matches) matching entries |
| `WorkoutPlan.SelectionIsSubsequence` | src/lib/workout-generator.ts:71-73 | the selection is a subsequence of the catalog, so catalog order is kept |
| `WorkoutPlan.SetsForGoal` | src/lib/workout-generator.ts:94-98 | sets are 3 exactly when the level is beginner or the goal is maintenance, otherwise 4 |
| `WorkoutPlan.RepRange` | src/lib/workout-generator.ts:101-105 | every repetition range has a low end below its high end, and both are two-digit numbers at most |
| `WorkoutPlan.RepsForGoal` | src/lib/workout-generator.ts:101-105 | the reps label is the decimal spelling `low-high` of the goal and level's repetition range |
| `WorkoutPlan.RestSeconds` | src/lib/workout-generator.ts:108-112 | the rest for each goal is a positive number of seconds below 100 |
| `WorkoutPlan.RestForGoal` | src/lib/workout-generator.ts:108-112 | the rest label is the goal's rest in seconds followed by `s`, and it does not depend on the level |
| `WorkoutPlan.ParameterOrdering` | src/lib/workout-generator.ts:94-112 | muscle gain gets the fewest reps and the longest rest, fat loss the most reps and the shortest rest, maintenance in between. At every goal a beginner's rep range is at least as high as any other level's at both ends, and a beginner never gets more sets |
| `WorkoutPlan.WorkoutName` | src/lib/workout-generator.ts:77-91 | the name starts with the goal's name. For days 1, 3 and 5 it is `<goal> - <day>`, and for any other day the day prints as `undefined` |
| `WorkoutPlan.WorkoutNameInjective` | src/lib/workout-generator.ts:77-91 | on the scheduled days, different (goal, day) pairs get different names |
| `WorkoutPlan.PlanDay` | src/lib/workout-generator.ts:32-42 | a generated day has one exercise per selected catalog entry, so at most 4 |
| `WorkoutPlan.PlanDayContents` | src/lib/workout-generator.ts:24-42 | each exercise keeps its entry's id, name, description, muscles and media unchanged and in order. All exercises of a day share the same sets, reps and rest, which depend on goal and level only |
| `WorkoutPlan.WeekOf` | src/lib/workout-generator.ts:17 | the epoch week is the unique w with w·604800000 ≤ now < (w+1)·604800000 |
| `WorkoutPlan.SameWeek` | src/lib/workout-generator.ts:118 | two timestamps in the same 7-day bucket get the same week, which is how writer and reader agree |
| `WorkoutPlan.EpochWeeksStartThursday` | src/lib/workout-generator.ts:17 | weeks are counted from the epoch and start on Thursday 00:00 UTC, so in every week any time on Monday to Wednesday is in a different week from any time on the following Friday |
| `WorkoutPlan.TodayNumber` | src/lib/workout-generator.ts:117 | the weekday with 0 replaced by 7 lies in 1..7, maps Sunday (0) to 7 and leaves the other days unchanged |
| `JsMath.Round` | src/lib/workout-generator.ts:156-157 | `Math.round` returns the integer n with n − 0.5 ≤ x < n + 0.5 |
| `JsMath.RoundShift` | src/lib/workout-generator.ts:147-156 | rounding commutes with adding a whole number, so integer goal offsets survive rounding |
| `JsMath.RoundMonotone` | src/lib/workout-generator.ts:156-157 | rounding preserves ≤ |
| `DailyGoals.CalculateDailyGoals` | src/lib/workout-generator.ts:145-159 | the calorie goal is round(1.2·(10w + 6.25h − 5a + 5)) plus the goal's offset (−500, +300 or 0). The protein goal is round(w·2.2) for muscle gain and round(w·1.8) otherwise |
| `DailyGoals.CalorieGoalsByGoal` | src/lib/workout-generator.ts:147-156 | for one body, fat loss is exactly maintenance − 500 and muscle gain exactly maintenance + 300 after rounding, so fat loss < maintenance < muscle gain |
| `DailyGoals.ProteinGoalsByGoal` | src/lib/workout-generator.ts:153-157 | at a non-negative weight, the muscle-gain protein goal is at least that of the other goals, and those two agree |
| `DailyGoals.CalorieGoalMonotone` | src/lib/workout-generator.ts:147-151 | the calorie goal does not fall with weight or height and does not rise with age |
| `DailyGoals.MaintenanceExample` | src/lib/workout-generator.ts:145-159 | 70 kg, 175 cm, 30 years at maintenance gives 1979 kcal and 126 g |
| `WorkoutStore.PlanRow` | src/lib/workout-generator.ts:27-43 | a generated row is stored under the key (user, week, day) |
| `WorkoutStore.UpsertDaysStep` | src/lib/workout-generator.ts:22-48 | one more iteration of the loop upserts that day's row unless the store refuses it |
| `WorkoutStore.UpsertDaysWrites` | src/lib/workout-generator.ts:22-48 | after the upserts, every listed day that the store accepts holds its planned row under (user, week, day) |
| `WorkoutStore.UpsertDaysKeeps` | src/lib/workout-generator.ts:22-48 | after the upserts, every key not written by the loop is present exactly when it was before, with the same row |
| `WorkoutStore.UpsertDaysAt` | src/lib/workout-generator.ts:22-48 | after the upserts, a key of this user and week whose day was listed and not refused holds the planned row. Every other key is present exactly when it was before, with the same row |
| `WorkoutStore.GeneratedAt` | src/lib/workout-generator.ts:8-48 | one run writes the planned row under (user, floor(now/604800000), day) for each scheduled day the store accepts. Every other key is unchanged, and a failed catalog query writes nothing |
| `WorkoutStore.GenerateIdempotent` | src/lib/workout-generator.ts:17-47 | a second run at any time in the same epoch week, with the same profile and catalog answer, leaves the table as the first run left it |
| `WorkoutStore.GeneratedKeysMatch` | src/lib/workout-generator.ts:45-47 | a run keeps every row under its own (user, week, day) key |
| `WorkoutStore.Store.GenerateWeeklyWorkout` | src/lib/workout-generator.ts:5-52 | the loop leaves the table equal to one run of the generator on the old table (rows == Generated(old(rows), …)) and keeps keys matching rows |
| `WorkoutStore.Store.TodaysWorkout` | src/lib/workout-generator.ts:115-142 | the reader returns a workout exactly when there is no read error and the key (user, current week, today with Sunday as 7) is present. That workout carries this user, week and day and the stored exercises. Otherwise it returns null |
| `WorkoutStore.GenerateThenRead` | src/lib/workout-generator.ts:117-125 | after a successful run, a read in the same epoch week on a scheduled day whose write was accepted returns that day's planned exercises |
| `WorkoutStore.SundayUntouched` | src/lib/workout-generator.ts:117 | the generator never writes the Sunday key (day 7) that the reader uses on Sundays |
| `MealAnalyzer.Lower` | src/lib/meal-analyzer.ts:41 | lowercasing keeps the length, leaves no capital letter, lowers every capital to its small letter and keeps every other character |
| `MealAnalyzer.LowerIdempotent` | src/lib/meal-analyzer.ts:41 | text without capitals is unchanged by lowering, so lowering twice is lowering once |
| `MealAnalyzer.TableKeysLowerCase` | src/lib/meal-analyzer.ts:44-59 | every keyword of the table is already lower case |
| `MealAnalyzer.MatchIgnoresCase` | src/lib/meal-analyzer.ts:41-64 | when a stretch of the description is a table keyword in any capitalisation, that entry's name is reported: matching ignores case |
| `MealAnalyzer.ShoutedKeyword` | src/lib/meal-analyzer.ts:41-64 | a description with "FRANGO" in capitals reports "Frango" |
| `MealAnalyzer.IncludesIffOccurs` | src/lib/meal-analyzer.ts:63 | `includes(key)` holds exactly when the key occurs at some position of the text |
| `MealAnalyzer.ScanTable` | src/lib/meal-analyzer.ts:62-70 | the `forEach` leaves the names of the matching entries in table order, the sum of their rounded portion kcal, and the sum of their protein rounded to tenths |
| `MealAnalyzer.ProcessAnalysisResult` | src/lib/meal-analyzer.ts:32-85 | if some keyword occurs, the result is the names and totals of the matched entries. Otherwise it is ['Refeição não identificada'] with floor(r·400)+200 kcal in 200..599 and floor(r'·30)+10 g in 10..39. Foods are never empty and at most 14, and confidence is 0.8 |
| `MealAnalyzer.MatchedNamesLength` | src/lib/meal-analyzer.ts:62-64 | each table entry contributes at most one name |
| `MealAnalyzer.MatchedNamesMembers` | src/lib/meal-analyzer.ts:62-64 | a name is reported exactly when the keyword of an entry with that name occurs in the text |
| `MealAnalyzer.MatchedNamesInOrder` | src/lib/meal-analyzer.ts:62-64 | the reported names are a subsequence of the table's names, so table order is kept |
| `MealAnalyzer.MatchedNamesDistinct` | src/lib/meal-analyzer.ts:62-64 | over a table of distinct names, no name is reported twice |
| `MealAnalyzer.TableNamesDistinct` | src/lib/meal-analyzer.ts:44-59 | the 14 display names of the table are pairwise different |
| `MealAnalyzer.EmptyTextMatchesNothing` | src/lib/meal-analyzer.ts:41 | the empty text matches no non-empty keyword |
| `MealAnalyzer.MissingDescriptionFallsBack` | src/lib/meal-analyzer.ts:41 | a missing or empty description matches no keyword, so it takes the fallback |
| `MealAnalyzer.PortionCaloriesBounds` | src/lib/meal-analyzer.ts:66-67 | with a multiplier in [0.75, 1.25), a food adds between round(0.75·c) and round(1.25·c) kcal, never negative |
| `MealAnalyzer.CaloriesBetween` | src/lib/meal-analyzer.ts:62-70 | the matched kcal lie between the totals at multipliers 0.75 and 1.25 and are non-negative |
| `MealAnalyzer.PortionProteinNonNegative` | src/lib/meal-analyzer.ts:68 | a food's protein to one decimal is never negative |
| `MealAnalyzer.ProteinNonNegative` | src/lib/meal-analyzer.ts:62-70 | the matched protein total is never negative |
| `MealAnalyzer.TableScanNames` | src/lib/meal-analyzer.ts:44-64 | for the real table and any description, the foods are at most 14, distinct and in table order, and exactly the entries whose keyword occurs |
| `MealAnalyzer.TableScanTotals` | src/lib/meal-analyzer.ts:44-70 | for the real table, the kcal are bounded by the 0.75 and 1.25 portion totals, and both totals are non-negative |
| `MealAnalyzer.FallbackRanges` | src/lib/meal-analyzer.ts:75-76 | the fallback gives 200..599 kcal and 10..39 g of protein |
| `DailyStats.ReduceIsSum` | src/lib/meal-analyzer.ts:119-120 | the left fold `reduce((s, m) => s + f(m), acc)` equals acc plus the sum of f over the meals |
| `DailyStats.SumCons` | src/lib/meal-analyzer.ts:119-120 | the sum can be split at the front as well as at the back |
| `DailyStats.SumNonNegative` | src/lib/meal-analyzer.ts:119-120 | a sum of non-negative estimates is non-negative |
| `DailyStats.GetDailyStats` | src/lib/meal-analyzer.ts:110-127 | a query error fails the call. Otherwise the totals are the sums of kcal and protein over the meals and the count is their number, with a null answer read as no meals |
| `DailyStats.OneMoreMeal` | src/lib/meal-analyzer.ts:119-125 | logging one more meal adds its kcal and protein to the totals and 1 to the count |
| `DailyStats.NoMeals` | src/lib/meal-analyzer.ts:119-125 | a null or empty list gives 0, 0, 0 |
| `DailyStats.TotalsNonNegative` | src/lib/meal-analyzer.ts:119-120 | meals with non-negative estimates give non-negative totals |

## Left out

- The catalog query itself is not modelled. This covers the `difficulty` filter and the equipment filter string on line 12 of the generator. Its answer is an input: rows, `null`, or an error.
- `Profile.workoutType` is kept so that the profile matches the record in `src/lib/types.ts`, but no member reads it. Its only use in the generator is the equipment filter of the catalog query, which is not modelled.
- The `.single()` error codes of the reader are not modelled. A read either finds the row, finds none, or fails (`readFails`). The table key is unique, so several rows cannot answer one read.
- A catalog row without a `muscles` list is not modelled. In the code, `.some` on it throws while the first scheduled day filters the catalog, before any upsert, so the `catch` ends the run with nothing written, as after a failed query. The model's catalog entries always carry a list.
- Database-assigned columns (`id`, `created_at`) of workouts and meals are not modelled. Neither are the profile's `id`, `name` and timestamps, which the core never reads.
- The clock and the time zone are not modelled. `Date.now()` is the `now` parameter, and the local `getDay()` is the `weekday` parameter (0..6).
- `Math.random` is not modelled. Each table entry has its own portion multiplier in [0.75, 1.25), used if that entry matches. The fallback gets two draws in [0, 1). The code draws only for the entries that match. Each draw has the same range, but the draws are indexed differently.
- IEEE-754 floating point is not modelled. All arithmetic is over exact reals, so no rounding error, NaN or infinity occurs, and the `|| 0` guards against NaN sums are not modelled.
- MealAnalyzer.Lower: `toLowerCase` is modelled for the Basic Latin and Latin-1 capitals only, the letters the table's keywords use. Other scripts are left unchanged.
- The frequency and the age are integers, as the profile form parses them. A non-integer frequency, which JavaScript's `slice` would truncate, is not modelled.
- `analyzeMealImage` and its call to the vision service are not modelled, because they are network I/O. Neither are `saveMeal` (a database insert), the meals query of `getDailyStats` (its user and date filter), or the `console.error` logging.
- Concurrent requests racing on the same workout key are not modelled. The model runs one request at a time.
- The pages and the navigation, the authentication redirect, the database client configuration, and the vision HTTP call with its canned fallback are not modelled. They are UI and I/O.
