# FitLink backend core in Dafny

This project models the logic of the FitLink training backend (an Express and TypeORM service
for a fitness social network). The heart of the model is the statistics engine. It takes a
user's training sessions and derives:

- per-week session counts and lifted-weight sums;
- time and calorie totals for the current week and the current month;
- the best lift of every exercise;
- a date-sorted progress series for one exercise;
- muscle-group counts;
- routine and exercise rankings;
- the weight history;
- the improvement report, which compares the first and last weight of every exercise.

Around the engine sit the smaller parts that feed it or share its data:

- recording a session: request checks, duration, total weight and the calorie estimate;
- routine creation, update, deletion and visibility, with the exercise checks against the
  exercise catalog;
- the profile update of a user;
- the `@mention` detector of posts and comments;
- the catalog filters;
- the pagination envelope.

There is one module per source file. The helper modules hold the JavaScript semantics the code
relies on:

- `JsValues`: JSON values of a request body, truthiness, `ToNumber` (with the decimal,
  exponent, `Infinity` and `0x`/`0o`/`0b` forms of a numeric string), `<=` against 0 and
  NaN-absorbing arithmetic. ToPrimitive throws a `TypeError` on a JSON object with an own
  `toString` property and on an array holding one (`PrimitiveThrows`), so a comparison, a
  product or a template literal on such a value throws.
- `JsStrings`: `trim`, `toLowerCase`, UTF-16 `length`, `split('T')[0]`, `String(n)`, `parseInt`
  and default string order, which compares UTF-16 code units.
- `JsObjects`: the property order of a plain object used as a dictionary, with array-index keys
  first in ascending order and then insertion order. This order is what `Object.values` and
  `Object.entries` list. The dictionary holds only its own properties: a key that names a
  property inherited from `Object.prototype` (`toString`, `constructor`, `__proto__`, …) is not
  covered, as "## Left out" says.
- `StableSort`: `Array.prototype.sort` on a numeric comparator, as a stable insertion sort.
- `Seqs`: filters, distinct elements, occurrence counts and sums.
- `Wrappers`: `Option`.

The model separates state from values:

- **Stores are classes.** The routine table, the user table, the mention table and the
  training-log table are classes whose map or sequence fields the handlers change.
- **Loaded data are parameters.** The sessions, performances, weight logs, catalog and user
  directory that the code loads are passed in.
- **The clock is a parameter.** The current instant (`now`) and the current year are inputs.
- **Dates are records.** A date is an `Instant` record: year, month, day of the year, weekday
  of 1 January, and the ISO text.
- **Every loop is a method.**
  - Each loop of the source is a `method` with a `while` loop.
  - Each such method is proved equal to a specification function.
  - The lemmas then state what the source promises about that function.

## Model

| member | source | states |
|---|---|---|
| WeekNumbering.WeekOfYear | src/services/statisticsService.ts:7-11 | the week number is the least `w` with `dayIndex + weekday(1 Jan) + 1 <= 7w`, i.e. `ceil((pastDays + getDay + 1) / 7)` |
| WeekNumbering.FirstDayIsWeekOne | src/services/statisticsService.ts:10 | 1 January is always in week 1 |
| WeekNumbering.WeekStep | src/services/statisticsService.ts:10 | from one day to the next the number rises by exactly one when the next day is a Sunday, and otherwise stays |
| WeekNumbering.WeekMonotone | src/services/statisticsService.ts:10 | the week number never decreases within a year |
| WeekNumbering.WeekRange | src/services/statisticsService.ts:10 | every day of a year, leap years included, lies in weeks 1..54 |
| WeekNumbering.WeekLabelInjective | src/services/statisticsService.ts:50 | two `year-W<week>` labels are equal iff year and week are equal, so buckets keyed by the label are buckets per week |
| WeekNumbering.WeekKeyInjective | src/services/statisticsService.ts:50-52 | two sessions share a week key iff they have the same year and week number |
| StatisticsService.Dated | src/services/statisticsService.ts:29 | each performance of a session is paired with the session's start, in order |
| StatisticsService.Flatten | src/services/statisticsService.ts:28-30 | the flattened list has one entry per performance of every session |
| StatisticsService.FlattenConcat | src/services/statisticsService.ts:28-30 | flattening keeps session order: it distributes over concatenation |
| StatisticsService.TallySessions | src/services/statisticsService.ts:46-67 | the session loop yields exactly the week counts, the week weight sums, the date list and the four window totals of their specification functions |
| StatisticsService.WeekBucketsMeaning | src/services/statisticsService.ts:50-52 | a week bucket exists iff some session started that week; its count is the number of those sessions and its weight the sum of their `totalWeight` |
| StatisticsService.SessionsPerWeekTotal | src/services/statisticsService.ts:51 | the week counts add up to the number of sessions |
| StatisticsService.WindowTimeMeaning | src/services/statisticsService.ts:58-64 | a window's time is the sum of the durations of exactly the sessions with the current year and week (or month) |
| StatisticsService.WindowCaloriesMeaning | src/services/statisticsService.ts:60-65 | a window's calories are the sum of the calories of exactly the sessions in the window, absent counting 0 |
| StatisticsService.WindowTimeOfSelection | src/services/statisticsService.ts:58-66 | sessions outside the window contribute nothing to its totals |
| StatisticsService.NoCaloriesAddNothing | src/services/statisticsService.ts:60 | a session with absent or zero calories leaves the calorie totals unchanged |
| StatisticsService.SeqMax | src/services/statisticsService.ts:70 | `Math.max(...ws)` of a non-empty list is an element at least every element |
| StatisticsService.MaxOrZero | src/services/statisticsService.ts:70-71 | the largest of 0 and the list: non-negative, at least every element, and 0 or an element |
| StatisticsService.WeightsOfMembers | src/services/statisticsService.ts:69-72 | the weights gathered for an id are exactly the set weights of its performances, bodyweight ones included |
| StatisticsService.BestLifts | src/services/statisticsService.ts:69-72 | `bestLiftPerExercise` has a key for exactly the exercise ids that occur, for keys that are not inherited property names |
| StatisticsService.BestLiftPerExercise | src/services/statisticsService.ts:69-72 | the performance loop builds exactly `BestLifts`, for keys that are not inherited property names |
| StatisticsService.BestLiftIsMaximum | src/services/statisticsService.ts:70-71 | each best lift is at least 0 and every weight of that exercise, and is 0 or one of those weights |
| StatisticsService.DigitsOf | src/services/statisticsService.ts:80 | the sort key of a date is built from its digits only |
| StatisticsService.ProgressPoints | src/services/statisticsService.ts:77-79 | one `{date, maxWeight}` point per selected performance, in order |
| StatisticsService.ExerciseProgress | src/services/statisticsService.ts:74-81 | empty without a non-empty filter; otherwise a permutation of the points of the matching performances, sorted by date |
| StatisticsService.ExerciseProgressIsStable | src/services/statisticsService.ts:80 | points with the same date keep their flatten order |
| StatisticsService.ExerciseProgressSource | src/services/statisticsService.ts:76 | every point comes from a performance with the filtered id |
| StatisticsService.TargetsOf | src/services/statisticsService.ts:85-89 | at most one counted target per performance |
| StatisticsService.MuscleGroupCounts | src/services/statisticsService.ts:84-90 | the loop builds the occurrence counts of the matched raw targets, for keys that are not inherited property names |
| StatisticsService.MuscleGroupsTotal | src/services/statisticsService.ts:85-90 | the muscle-group counts total at most the number of performances |
| StatisticsService.MuscleGroupSource | src/services/statisticsService.ts:86-87 | a target is counted only through the first catalog match of a performance, when that target is truthy |
| StatisticsService.UsagesKeys | src/services/statisticsService.ts:97-99 | dictionary entries are created in order of first occurrence of their key |
| StatisticsService.UsagesMeaning | src/services/statisticsService.ts:96-111 | an entry exists iff its key occurs; it holds the first occurrence's label and the number of occurrences |
| StatisticsService.Tally | src/services/statisticsService.ts:92-112 | the counting loop builds exactly `Usages` and keeps the dictionary well formed, for keys that are not inherited property names |
| StatisticsService.Ranking | src/services/statisticsService.ts:104 | `Object.values(...).sort(byCountDesc)`: a permutation of the values, with counts non-increasing |
| StatisticsService.RankingTotal | src/services/statisticsService.ts:92-114 | the counts of a ranking add up to the number of counted items: the sessions with a routine, or all performances |
| StatisticsService.RankingEntries | src/services/statisticsService.ts:95-109 | every ranked entry carries its key's first label (`'Sin título'` when falsy) and its occurrence count |
| StatisticsService.RankingTies | src/services/statisticsService.ts:104 | entries with equal counts keep the `Object.values` order |
| StatisticsService.RoutineItems | src/services/statisticsService.ts:93-101 | one counted item per session with a truthy routine id, keyed by the id's numeral |
| StatisticsService.RoutineOrderIsById | src/services/statisticsService.ts:104 | routine ids are array-index keys, so `Object.values` lists routines by ascending id |
| StatisticsService.ExtractStatistics | src/services/statisticsService.ts:27-130 | every field of the returned statistics equals its specification function |
| StatisticsService.FormatWeightHistory | src/services/statisticsService.ts:132-137 | same length and order, `value` unchanged, the date cut before its first `T` |
| ExerciseImprovement.GroupedMeaning | src/services/statisticsService.ts:152-170 | a group exists iff its exercise occurs, even with no dated entry; it holds the first name and the dated entries in input order |
| ExerciseImprovement.GroupedKeys | src/services/statisticsService.ts:157-162 | groups are created in order of first occurrence of their exercise |
| ExerciseImprovement.GroupEntriesAbsent | src/services/statisticsService.ts:157-169 | an exercise that does not occur has no entries |
| ExerciseImprovement.RawImprovement | src/services/statisticsService.ts:173-176 | with a positive first weight, the sign follows last minus first and `r * first == (last - first) * 100`; otherwise 0, an empty group included |
| ExerciseImprovement.ToFixed2Close | src/services/statisticsService.ts:183 | `parseFloat(x.toFixed(2))` moves a number by at most half a hundredth and keeps its sign |
| ExerciseImprovement.ToFixed2Monotone | src/services/statisticsService.ts:183 | the rounding never reverses an order |
| ExerciseImprovement.Results | src/services/statisticsService.ts:172-186 | one result per group |
| ExerciseImprovement.ResultsCount | src/services/statisticsService.ts:172-186 | one result per distinct exercise id |
| ExerciseImprovement.ResultsCover | src/services/statisticsService.ts:157-172 | every exercise seen has a result |
| ExerciseImprovement.ResultAt | src/services/statisticsService.ts:172-186 | each result has the first name, the dated entries, first and last weight (undefined when empty) and the rounded improvement of its exercise |
| ExerciseImprovement.ByImprovement | src/services/statisticsService.ts:190 | a permutation of the results in non-increasing improvement |
| ExerciseImprovement.ByImprovementStable | src/services/statisticsService.ts:190 | equal improvements keep their `Object.entries` order |
| ExerciseImprovement.TopFiveShape | src/services/statisticsService.ts:188-196 | at most five summaries, non-increasing, each the `{exerciseId, name, improvement}` of a result |
| ExerciseImprovement.TopFiveIsBest | src/services/statisticsService.ts:188-196 | the summaries are the first five of the sorted results, and nothing left out has a larger improvement than the last one kept |
| ExerciseImprovement.GetExerciseImprovement | src/services/statisticsService.ts:150-199 | throws exactly when a bodyweight performance lacks its session or user; otherwise returns every result or the top five, for keys that are not inherited property names |
| TrainingLogService.Destructure | src/services/trainingLogService.ts:25 | destructuring throws exactly on `undefined` and `null` |
| TrainingLogService.SetsWeightNonNegative | src/services/trainingLogService.ts:40-41 | sets with positive reps and non-negative weights lift a non-negative weight |
| TrainingLogService.LoadNonNegative | src/services/trainingLogService.ts:40-41 | an accepted exercise adds a non-negative weight |
| TrainingLogService.ValidateAllSucceeds | src/services/trainingLogService.ts:21-47 | when every exercise passes: success, one performance each, total the sum of the loads, total at least 0; an empty list gives `{[], 0}` |
| TrainingLogService.ValidatedLength | src/services/trainingLogService.ts:44 | a success lists one performance per exercise |
| TrainingLogService.ValidatedPerformances | src/services/trainingLogService.ts:30-35 | a success only when every exercise passes, with each performance its exercise's fields copied and `isBodyweight` made boolean |
| TrainingLogService.FirstFailureDecides | src/services/trainingLogService.ts:27-40 | the first failing exercise decides: `null`, or the `TypeError` of destructuring |
| TrainingLogService.SumSets | src/services/trainingLogService.ts:37-42 | the set loop accepts iff every rep is a positive number and every weight a non-negative number, and adds Σ rep·weight unless bodyweight |
| TrainingLogService.CheckOne | src/services/trainingLogService.ts:25-44 | one loop iteration computes `CheckExercise` |
| TrainingLogService.ValidateExercises | src/services/trainingLogService.ts:18-48 | the method returns exactly `ValidateAll` |
| TrainingLogService.CaloriesBurned | src/services/trainingLogService.ts:50-58 | `undefined` exactly when the weight is absent or 0 |
| TrainingLogService.CaloriesBurnedLinear | src/services/trainingLogService.ts:55-57 | the estimate is `0.00175 * weight * duration`, linear in the duration |
| TrainingLogController.Duration | src/controllers/trainingLogController.ts:40-42 | whole seconds rounded down, `d*1000 <= end - start < d*1000 + 1000`, negative when the end precedes the start |
| TrainingLogController.SetsTotalOfNumbers | src/controllers/trainingLogController.ts:67-72 | with numeric sets the handler adds what the service adds: nothing for bodyweight, else Σ rep·weight |
| TrainingLogController.Verdicts | src/controllers/trainingLogController.ts:47-58 | one verdict per exercise |
| TrainingLogController.CombineSucceeds | src/controllers/trainingLogController.ts:47-75 | when every exercise is accepted the loop builds one performance each |
| TrainingLogController.CombinedOnlyIfAccepted | src/controllers/trainingLogController.ts:47-75 | the loop builds the session only when every exercise is accepted, with each one's performance in order |
| TrainingLogController.FirstRejectionDecides | src/controllers/trainingLogController.ts:50-58 | the first rejected exercise decides the answer |
| TrainingLogController.NegativeWeightAccepted | src/controllers/trainingLogController.ts:67-72 | there is no set sign check: a negative weight is accepted and lowers the total, while the service rejects it |
| TrainingLogController.HandlerAcceptsOneSet | src/controllers/trainingLogController.ts:50-72 | any single numeric set with a non-empty id and name is accepted as a non-bodyweight performance whose total is rep·weight, whatever the signs |
| TrainingLogController.ServiceRejectsNegativeWeight | src/services/trainingLogService.ts:40 | the service turns down any single set whose weight is negative |
| TrainingLogController.CreateOutcome | src/controllers/trainingLogController.ts:19-98 | a session is saved iff the answer is 201, only with a complete body, a routine and a user; a missing routine is reported before the user; a product `rep * weight` whose conversion throws ends in 500 with nothing saved (through `ExerciseVerdict`) |
| TrainingLogController.StoredSession | src/controllers/trainingLogController.ts:40-95 | the saved session has the floored duration, one performance per exercise, the routine and user, and a total weight equal to the `+=` sum of the sets of its performances |
| TrainingLogController.StoredOnlyIfAccepted | src/controllers/trainingLogController.ts:47-97 | nothing is saved unless every exercise is accepted, and the saved performances are those of the exercises, in order |
| TrainingLogController.CombinedTotal | src/controllers/trainingLogController.ts:45-75 | the total the exercise loop builds is the weight its performances account for |
| TrainingLogController.VerdictConsistent | src/controllers/trainingLogController.ts:56-72 | an accepted exercise pairs its reps with its weights and adds exactly the sum of those sets |
| TrainingLogController.PerformancesTotalOfNumbers | src/controllers/trainingLogController.ts:45-72 | with numeric sets the stored total is finite and equals Σ `rep * weight` over the exercises that are not bodyweight |
| TrainingLogController.ExponentRepTerm | src/controllers/trainingLogController.ts:71 | `'1e1' * 2` adds 20 |
| TrainingLogController.ObjectRepCrashes | src/controllers/trainingLogController.ts:67-72 | a rep object with an own `toString` makes `rep * weight` throw: the answer is 500 and nothing is saved, whatever follows |
| TrainingLogController.AddSets | src/controllers/trainingLogController.ts:68-72 | the set loop adds `SetsTotal` to the running total, and throws exactly when a product of an exercise that is not bodyweight has an operand whose conversion throws |
| TrainingLogController.CheckExerciseRequest | src/controllers/trainingLogController.ts:48-74 | one iteration gives the exercise's verdict and adds its load |
| TrainingLogController.SessionCalories | src/controllers/trainingLogController.ts:77-83 | an estimate is made only for a truthy weight, and then is the service's estimate |
| TrainingLogController.BuildPerformances | src/controllers/trainingLogController.ts:44-75 | the exercise loop returns exactly `BuildAll` |
| TrainingLogController.TrainingLogStore.Save | src/controllers/trainingLogController.ts:97 | the session is appended to the table |
| TrainingLogController.CreateTrainingLog | src/controllers/trainingLogController.ts:9-103 | the answer is `CreateOutcome`'s and the table grows by the saved session only on success |
| RoutineService.UpdatedRoutine | src/services/routineService.ts:70-72 | trimmed title, trimmed description or `''`, exercises replaced, visibility and owner kept |
| RoutineService.UpdateIdempotent | src/services/routineService.ts:70-72 | applying an update's own result again changes nothing |
| RoutineService.RoutineStore.UpdateRoutineData | src/services/routineService.ts:64-74 | the routine is replaced by `UpdatedRoutine` and nothing else changes |
| RoutineService.RoutineStore.Insert | src/controllers/routineController.ts:58-66 | a new routine gets a fresh id and every other row is kept |
| RoutineService.RoutineStore.Remove | src/services/routineService.ts:76-78 | exactly that routine is removed |
| RoutineService.RoutineStore.Overwrite | src/controllers/routineController.ts:169 | saving a loaded routine replaces exactly that row |
| RoutineService.Toggled | src/services/routineService.ts:112-116 | same ids; only the caller's own routine changes, and only its `isPublic`; a missing or foreign routine changes nothing |
| RoutineService.ToggleIdempotent | src/services/routineService.ts:114-116 | toggling twice to the same value equals toggling once, and stays allowed |
| RoutineService.RoutineStore.ToggleRoutineVisibility | src/services/routineService.ts:101-117 | returns whether the caller owns an existing routine, and leaves the table as `Toggled` says |
| RoutineService.Lookup | src/services/exerciseService.ts:18-21 | the catalog entry found has exactly the requested string id, and is the first one |
| RoutineService.BuildLog | src/services/routineService.ts:12-24 | throws exactly on an `undefined`/`null` element, or with a truthy id when the sign test `sets <= 0`, or `reps <= 0` after it, throws; an accepted log has a truthy id, counts not `<= 0`, and the catalog's non-empty name |
| RoutineService.NonPositiveSetsNotBuilt | src/services/routineService.ts:13 | a `sets` value that compares `<= 0`, whatever its JSON type, makes the element rejected |
| RoutineService.ExponentSetsNotBuilt | src/services/routineService.ts:13 | `sets: '-1e1'` is rejected, since it reads as -10 |
| RoutineService.ObjectSetsThrow | src/services/routineService.ts:13 | a `sets` object with an own `toString` makes the sign test throw |
| RoutineService.MissingSetsAccepted | src/services/routineService.ts:13 | an exercise without `sets` or `reps` is accepted, because `undefined <= 0` is false |
| RoutineService.BuildLogs | src/services/routineService.ts:11 | one element result per requested exercise |
| RoutineService.CollectSucceeds | src/services/routineService.ts:9-27 | all accepted: the list of their logs in order; an empty input gives `[]` |
| RoutineService.CollectedOnlyIfBuilt | src/services/routineService.ts:11-25 | a list is returned only when every element is accepted |
| RoutineService.FirstRejectedDecides | src/services/routineService.ts:13-16 | the first rejected element decides: `null`, or the `TypeError` |
| RoutineService.BuiltLogs | src/services/routineService.ts:18-24 | each built log has its request's id, `sets` and `reps` and the catalog name |
| RoutineService.BuildOne | src/services/routineService.ts:12-24 | one iteration computes `BuildLog` |
| RoutineService.ValidateAndBuildExercises | src/services/routineService.ts:6-28 | the method returns exactly `ValidateAndBuild` |
| RoutineController.CheckExercise | src/controllers/routineController.ts:31-55 | throws on an `undefined`/`null` element; an accepted log has truthy, positive counts and a catalog id, and its name comes from the catalog (non-empty on update) |
| RoutineController.CheckExerciseThrows | src/controllers/routineController.ts:31-47 | for a non-nullish element, the checks throw exactly when the three fields are truthy and either the sign test `sets <= 0`, or `reps <= 0` after it, throws, or both pass and the id cannot be rendered into the not-found message |
| RoutineController.NonPositiveSetsRejected | src/controllers/routineController.ts:38-41 | a truthy `sets` that compares `<= 0` is answered 'Sets y repeticiones deben ser mayores que 0' |
| RoutineController.ExponentSetsRejected | src/controllers/routineController.ts:38-41 | `sets: '-1e1'` is answered 'Sets y repeticiones deben ser mayores que 0' |
| RoutineController.ObjectSetsThrow | src/controllers/routineController.ts:38 | a `sets` object with an own `toString` makes the sign test throw, whatever truthy `reps` is |
| RoutineController.ObjectIdThrows | src/controllers/routineController.ts:43-46 | an id object with an own `toString` is not in the catalog, and rendering it into the message throws |
| RoutineController.ZeroSetsIncomplete | src/controllers/routineController.ts:33-36 | `sets: 0` fails the truthiness test before the sign test |
| RoutineController.Checks | src/controllers/routineController.ts:30 | one verdict per element |
| RoutineController.CollectSucceeds | src/controllers/routineController.ts:30-56 | all accepted: the loop finishes |
| RoutineController.CollectedLength | src/controllers/routineController.ts:55 | one log per element |
| RoutineController.CollectedOnlyIfAccepted | src/controllers/routineController.ts:30-56 | the loop finishes only when every element is accepted, with their logs in order |
| RoutineController.FirstRejectDecides | src/controllers/routineController.ts:33-47 | the first rejection decides the answer |
| RoutineController.StoredLogs | src/controllers/routineController.ts:49-55 | every stored log is the accepted log of the element at its position |
| RoutineController.CheckBody | src/controllers/routineController.ts:18-56 | valid only with a trimmed title of 3..50 code units, a description of at most 300 and every exercise accepted; crashes exactly when, past the title test, `description.length > 300` or the exercise loop throws |
| RoutineController.CreateOutcome | src/controllers/routineController.ts:8-72 | a routine is created iff the answer is 201, then with a non-empty exercise array, the untrimmed title and the description as sent |
| RoutineController.CreateRejectsNoExercises | src/controllers/routineController.ts:13-16 | an empty `exercises` array is rejected with 400 |
| RoutineController.ObjectSetsCrashCreate | src/controllers/routineController.ts:30-41 | a first exercise whose `sets` cannot be converted ends `createRoutine` in 500 with nothing created, whatever follows |
| RoutineController.TrimmedDescription | src/controllers/routineController.ts:166 | `description?.trim() || ''` throws exactly on a defined non-string |
| RoutineController.UpdateBody | src/controllers/routineController.ts:120-171 | an update happens iff 200, then with a string title, an array, the checks passed and the routine rewritten by `UpdatedRoutine` |
| RoutineController.UpdateBodyNoExercises | src/controllers/routineController.ts:120-171 | the update checks pass an empty `exercises` array |
| RoutineController.UpdateOutcome | src/controllers/routineController.ts:93-176 | an update happens iff 200, only on a parsed id of an existing routine the caller owns |
| RoutineController.UpdateAcceptsNoExercises | src/controllers/routineController.ts:120 | update accepts `exercises: []`, emptying the routine and storing `''` as description |
| RoutineController.UpdatedTitle | src/controllers/routineController.ts:165 | the stored title is trimmed, 3..50 code units long, and visibility and owner are kept |
| RoutineController.UpdateChecksOwnershipFirst | src/controllers/routineController.ts:99-118 | a bad id, a missing routine or a foreign routine decide the answer (400/404/403) whatever the body holds |
| RoutineController.DeleteOutcome | src/controllers/routineController.ts:178-210 | a removal happens iff 200 iff the id parses to an existing routine the caller owns, and removes that id |
| RoutineController.CheckOne | src/controllers/routineController.ts:31-55 | one iteration computes `CheckExercise` |
| RoutineController.ValidateExercises | src/controllers/routineController.ts:30-56 | the loop returns exactly `CollectExercises` |
| RoutineController.ValidateBody | src/controllers/routineController.ts:18-56 | the checks return exactly `CheckBody` |
| RoutineController.CreateRoutine | src/controllers/routineController.ts:8-72 | answers as `CreateOutcome` and inserts the routine only on success |
| RoutineController.UpdateLoaded | src/controllers/routineController.ts:120-171 | answers as `UpdateBody` and rewrites only that routine on success |
| RoutineController.UpdateRoutine | src/controllers/routineController.ts:93-176 | answers as `UpdateOutcome` and changes the table only on success |
| RoutineController.DeleteRoutine | src/controllers/routineController.ts:178-210 | answers as `DeleteOutcome` and removes the routine only on success |
| UserService.FirstFailure | src/services/userService.ts:25-41 | checks in the order name, bio, age; the message of the first that fails, none iff all pass |
| UserService.Merged | src/services/userService.ts:43-48 | birth date replaced if sent, `name ?? old`, `bio ?? old`, a falsy picture reset to the default; id, e-mail, username and weight untouched |
| UserService.MergeIdempotent | src/services/userService.ts:43-48 | sending the same profile twice stores what sending it once stores |
| UserService.MergeOwnProfile | src/services/userService.ts:46-48 | merging a user's own profile changes only a missing picture to the default |
| UserService.UpdateOutcome | src/services/userService.ts:14-53 | a missing user fails with 'Usuario no encontrado'; success iff the user exists and every check passes |
| UserService.NameCheckedFirst | src/services/userService.ts:25-27 | an invalid name decides the answer whatever the other fields hold |
| UserService.AcceptedAge | src/services/userService.ts:33-41 | an accepted valid birth date is at least 13 calendar years back |
| UserService.UserStore.UpdateUserProfile | src/services/userService.ts:14-53 | answers as `UpdateOutcome`; on success only that user is rewritten, with `Merged`; on failure nothing changes |
| MentionService.RunEnd | src/services/mentionService.ts:18 | the end of the maximal run of `\w` characters from a position |
| MentionService.Spans | src/services/mentionService.ts:18 | the matches of `/@(\w+)/g`, each preceded by `@` and maximal, left to right without overlap |
| MentionService.EveryMentionFound | src/services/mentionService.ts:18 | every `@` followed by a `\w` character starts a match |
| MentionService.MatchedNames | src/services/mentionService.ts:18 | the matched names without their `@`, in text order |
| MentionService.UsernamesShape | src/services/mentionService.ts:18 | each username is a non-empty `\w` run held as a match, and the list has no duplicates |
| MentionService.NoUsernamesIff | src/services/mentionService.ts:18-19 | no username iff the text has no `@` followed by a `\w` character |
| MentionService.SourceRef | src/services/mentionService.ts:33-34 | a falsy post or comment id gives no reference |
| MentionService.Saved | src/services/mentionService.ts:26-49 | at most one mention per looked-up user |
| MentionService.SavedShape | src/services/mentionService.ts:27-46 | every saved mention names a looked-up user other than the author, with the author, the references and type 'post' iff `isPost` |
| MentionService.SavedOnlyIfAbsent | src/services/mentionService.ts:29-38 | a mention is saved only when no matching mention was in the table at that moment |
| MentionService.NoDuplicateMention | src/services/mentionService.ts:29-38 | no saved mention repeats the (user, author, post, comment) of an earlier row |
| MentionService.DetectOutcomeShape | src/services/mentionService.ts:18-49 | the table only grows, does not change when the text names no one, and every new row names a user whose username was written and who is not the author |
| MentionService.MentionStore.Save | src/services/mentionService.ts:48 | the mention is appended to the table |
| MentionService.DetectMentions | src/services/mentionService.ts:7-53 | the mention table ends as `DetectOutcome` says |
| ExerciseService.FindById | src/services/exerciseService.ts:18-21 | `null` iff no entry has the id; otherwise the first entry with it |
| ExerciseService.FirstIdIndex | src/services/exerciseService.ts:20 | the index of the first entry with the id |
| ExerciseService.FindByIdIsFirst | src/services/exerciseService.ts:20 | the entry found is the first with that id |
| ExerciseService.FilterByTarget | src/services/exerciseService.ts:23-26 | the input unchanged without a target; otherwise the order-preserving subsequence of entries whose lower-cased target matches, each kept as often as it occurs |
| ExerciseService.NoTargetIsDropped | src/services/exerciseService.ts:25 | an entry without a target never passes a target filter |
| ExerciseService.FilterByTargetIdempotent | src/services/exerciseService.ts:23-26 | filtering twice equals filtering once |
| ExerciseService.SortStrings | src/services/exerciseService.ts:35 | `sort()` of distinct strings: strictly increasing in UTF-16 code-unit order, same elements |
| ExerciseService.LowerTargets | src/services/exerciseService.ts:29-34 | exactly the lower-cased truthy targets |
| ExerciseService.GetSortedTargets | src/services/exerciseService.ts:28-36 | strictly increasing in UTF-16 code-unit order, all lower case, and exactly the lower-cased truthy targets |
| ExerciseService.LowerTargetsAreLower | src/services/exerciseService.ts:31-32 | every collected target is already lower case |
| EjerciciosService.FilterColumn | src/services/ejerciciosService.ts:18-20 | throws iff an entry lacks the column; otherwise the entries whose lower-cased column matches, in order |
| EjerciciosService.NoFiltersReturnsAll | src/services/ejerciciosService.ts:13-29 | with no filter or only empty ones the whole list is returned in file order |
| EjerciciosService.FilteredMeaning | src/services/ejerciciosService.ts:17-27 | the result is an order-preserving subsequence holding exactly the entries that pass every given filter |
| EjerciciosService.ThrowsOnMissingField | src/services/ejerciciosService.ts:17-27 | the call throws iff a given filter meets an entry without its field |
| Pagination.CeilDiv | src/utils/pagination.ts:2 | `Math.ceil(a / b)`: the least integer not below the quotient, for either sign of `b` |
| Pagination.BuildPaginationResponse | src/utils/pagination.ts:1-9 | `data`, `total` and `page` pass through and `totalPages` is `ceil(total / limit)` |
| Pagination.TotalPagesBounds | src/utils/pagination.ts:2 | for positive limit and total: `1 <= p` and `(p-1)*limit < total <= p*limit` |
| Pagination.TotalPagesLeast | src/utils/pagination.ts:2 | no smaller page count holds all results |
| Pagination.EveryItemOnAPage | src/utils/pagination.ts:2 | every result index lies on a counted page |
| Pagination.NoResultsNoPages | src/utils/pagination.ts:2 | no results make zero pages |
| Pagination.ZeroLimit | src/utils/pagination.ts:2 | a zero limit makes `Infinity` or `NaN` pages |
| JsStrings.Trim | src/controllers/routineController.ts:18 | `trim()` leaves no white space at either end |
| JsStrings.TrimIdempotent | src/services/routineService.ts:70 | trimming twice equals trimming once |
| JsStrings.Lower | src/services/exerciseService.ts:25 | `toLowerCase()` character by character, lowering the upper-case letters of Basic Latin and Latin-1 |
| JsStrings.LowerIdempotent | src/services/exerciseService.ts:32 | lower-casing a lower-cased string changes nothing |
| JsStrings.Utf16Length | src/controllers/routineController.ts:18 | `length` counts UTF-16 code units |
| JsStrings.Utf16LengthIsUnitCount | src/controllers/routineController.ts:18 | `length` is the number of code units that string order compares |
| JsStrings.Utf16UnitsInjective | src/services/exerciseService.ts:35 | distinct strings have distinct UTF-16 code units, so `sort()` never ties two distinct targets |
| JsStrings.StrLessIrreflexive | src/services/exerciseService.ts:35 | no string sorts before itself |
| JsStrings.StrLessTransitive | src/services/exerciseService.ts:35 | string order is transitive |
| JsStrings.StrLessTotal | src/services/exerciseService.ts:35 | of two distinct strings one sorts first |
| JsStrings.StrLessAsymmetric | src/services/exerciseService.ts:35 | two strings never sort before each other |
| JsStrings.StrLessOfFirstChars | src/services/exerciseService.ts:35 | strings compare by the code units of their first differing character |
| JsStrings.SupplementaryBeforeHighBmp | src/services/exerciseService.ts:35 | a character above U+FFFF sorts before one in U+E000 to U+FFFF, against code-point order |
| JsStrings.TrimUnspaced | src/controllers/routineController.ts:18 | a string with no white space at either end is its own trim |
| JsStrings.DatePart | src/services/statisticsService.ts:47 | `split('T')[0]` is the prefix before the first `T` |
| JsStrings.ParseIntOfIntToString | src/controllers/routineController.ts:96 | `parseInt(String(i))` is `i` |
| JsValues.Get | src/services/trainingLogService.ts:25 | destructuring a property throws exactly on `undefined`/`null` |
| JsValues.UndefinedIsNotAtMostZero | src/services/routineService.ts:13 | `undefined <= 0` is false |
| JsValues.PrimitiveThrowsIsNaN | src/controllers/routineController.ts:38 | a value whose conversion throws reads as `NaN` in `ToNumber`, so the throw test must come first |
| JsValues.AtMostZeroConverts | src/services/routineService.ts:13 | a value that compares `<= 0` converts without throwing |
| JsValues.UnsignedDecimalNonNegative | src/services/routineService.ts:13 | an unsigned numeric string never reads as a negative number |
| JsValues.UnsignedDecimalString | src/services/routineService.ts:13 | a string without sign, prefix or surrounding space reads as its unsigned literal |
| JsValues.NegativeDecimalString | src/services/routineService.ts:13 | a string with a leading `-` reads as the negated literal after it |
| JsValues.ExponentLiteral | src/controllers/routineController.ts:38 | `digits e digits` reads as the mantissa times ten to the exponent |
| JsValues.NegatedExponentLiteral | src/controllers/routineController.ts:38 | the negation of such a literal is the negated product |
| JsValues.ExponentNumeral | src/controllers/trainingLogController.ts:71 | `'1e1'` reads as 10 |
| JsValues.NegativeExponentNumeral | src/controllers/routineController.ts:38 | `'-1e1'` reads as -10 |
| JsValues.InfinityNumerals | src/services/routineService.ts:13 | `'Infinity'` and `'-Infinity'` read as the two infinities |
| JsValues.HexNumeral | src/services/routineService.ts:13 | `'0x'` and hexadecimal digits read as their value in base 16 |
| JsObjects.Values | src/services/statisticsService.ts:104 | `Object.values` lists every property once, in key order |
| JsObjects.OwnKeysOfIndices | src/services/statisticsService.ts:104 | array-index keys are enumerated in ascending numeric order |
| StableSort.SortBy | src/services/statisticsService.ts:80 | the sort is a sorted permutation of its input |
| StableSort.SortByStable | src/services/statisticsService.ts:80 | equal keys keep their input order |
| StableSort.StableSortIsUnique | src/services/statisticsService.ts:190 | any stable sort of the input by the key equals `SortBy` |
| Seqs.DistinctFirstOccurrenceOrder | src/services/mentionService.ts:18 | `[...new Set(s)]` keeps first-occurrence order |
| Seqs.CountsMeaning | src/services/statisticsService.ts:51 | a counting dictionary has a positive entry for exactly the elements that occur, equal to their number of occurrences |

## Left out

- Persistence. The repository calls, query builders and relations loaded by TypeORM are not
  modelled. This covers the session, weight-log and performance queries, the user lookup and the
  routine lookup. The loaded rows are parameters, and the tables that handlers change are the
  store classes.
- The exercise catalog. It comes from an HTTP API (`fetchAllExercises`), and the translated list
  comes from a JSON file read from disk. Both are parameters.
- The routine lookup. `routineService.ts` imports a `fetchExerciseById` that `exerciseService.ts`
  does not export. The model uses the lookup of `getExerciseById`: the first catalog entry with
  that id.
- Errors of the I/O itself. Failing saves and failing fetches, and the `try`/`catch` blocks that
  turn them into 500 answers or into a log line (`detectMentions`), are not modelled. Only the
  `TypeError`s that the modelled code raises itself show up, as `Throw`.
- The clock and date parsing. `new Date()`, `new Date(string)`, time zones and `toISOString` are
  not modelled. A date is an `Instant` record supplied by the caller, the current year is a
  parameter, and the controller's start and end are millisecond values.
- Week keys. They are `WeekId` values rather than `` `${year}-W${week}` `` strings.
  `WeekLabelInjective` shows that the buckets are the same.
- Floating point. Numbers are exact reals or integers: there is no IEEE rounding, no `-0` and no
  overflow, so a numeric string such as `'1e400'` reads as its exact value rather than as
  `Infinity`. `toFixed(2)` is modelled exactly on reals.
- BestLifts: stored weights are reals. A stored weight that `Number` reads as `NaN` is not
  modelled; `Math.max` would make that exercise's lift `NaN`, and a later `NaN || 0` would
  restart it from 0 (src/services/statisticsService.ts:70-71).
- TallySessions: stored session totals are reals. A stored `NaN` total is not modelled; it
  would make the week's weight sum `NaN`, and the next session of that week would restart the
  sum from 0 through `NaN || 0` (src/services/statisticsService.ts:52).
- GetExerciseImprovement: stored weights are reals, so a `NaN` weight, which would make
  `Math.max(...perf.weights)` `NaN` (src/services/statisticsService.ts:155), is not modelled.
- Lower: only the upper-case letters of Basic Latin and Latin-1 are lowered. Other scripts,
  and the characters whose lower case is longer than one character, are left as they are,
  because the model has no Unicode case table.
- FilterByTarget: targets are compared after `Lower`, so it inherits that limit.
- GetSortedTargets: the targets are collected after `Lower`, so it inherits that limit; their
  order is the UTF-16 code-unit order that `sort()` uses.
- BestLiftPerExercise: exercise ids are taken to be own keys only. An id that names a property
  inherited from `Object.prototype` is not modelled: for `toString` and its kind,
  `bestLiftPerExercise[id] || 0` reads the inherited function and `Math.max` stores `NaN`; for
  `__proto__` the assignment is ignored and the id never appears
  (src/services/statisticsService.ts:69-72). The model gives the best weight in both cases.
- BestLifts: inherits the limit of `BestLiftPerExercise` on inherited property names.
- MuscleGroupCounts: a catalog target that names an inherited property (`constructor`, say) is
  not modelled. `(exerciseCountByTarget[target] || 0) + 1` would start from the inherited value
  rather than 0 (src/services/statisticsService.ts:84-90); the model counts from 0.
- Tally: an exercise id that names an inherited property is not modelled. `!m[key]` is false for
  it, so no entry is created, the count is written onto the inherited value (a change to
  `Object.prototype` or its members that outlives the request), and `mostFrequentExercises`
  leaves the exercise out (src/services/statisticsService.ts:106-114). The model counts and ranks
  it like any other id. Routine ids are numerals and cannot name such a property.
- GetExerciseImprovement: an exercise id that names an inherited property is not modelled.
  `!grouped[id]` is false for it, so no group is created; the `push` onto the inherited value
  then throws (a 500 answer), or, when the `continue` skips it, `Object.entries` does not list
  the id (src/services/statisticsService.ts:157-166). The model groups it like any other id.
- GetExerciseImprovement: requires a non-empty `weights` list on every non-bodyweight
  performance. `Math.max()` of an empty list is `-Infinity`, which the model has no value for.
- The `.select` gap in the improvement query. The query uses `leftJoin` without selecting the
  session. Whether the session is actually loaded depends on TypeORM, so it is an input to the
  model (`trainingLog: Option<LogRef>`).
- Error message text. A template-literal message such as `` `Ejercicio no encontrado: ${id}` `` is
  kept as its prefix and the raw value (`WithId`). It is not rendered to text; only whether
  rendering throws is modelled.
- Request fields that are not JSON. Body fields are JSON values.
- UpdateOutcome: `ProfileData` fields are strings or absent. The controller forwards `name`,
  `bio` and `profilePic` as the body carries them (src/controllers/userController.ts:13-21),
  and the name test converts its argument to a string. So `name: 5` is refused as
  'Nombre inválido' through `'5'`, and `name: true` passes and is stored as it is. Non-string
  fields are not modelled, because the model has no string conversion of arbitrary values.
- The calorie estimate. `trainingRepo.create` copies only the columns the `TrainingLog` entity
  declares, and it declares no `caloriesBurned`, so the estimate computed by the handler is not
  part of the saved row. Since the `User` entity has no `weight` column either, the estimate
  is never made for a loaded user.
- Pagination: the arguments are integers. Fractional `total`, `limit` and `page` values are not
  modelled.
- Authentication. The `userId` that the middleware puts on the request is a parameter.
- Plain CRUD helpers. `createRoutineForUser`, `getUserRoutines`, `findRoutineById`,
  `deleteRoutineById`, `getPublicRoutinesFromFollowing` and the `findRoutineByIdWithOwner` and
  `findUserById` lookups are single repository calls. The stores' `Insert`, `Remove` and
  `Overwrite` stand for the saves among them.
- The mention query. It returns user rows in database order. The model returns them in the
  order of the given directory.
- UpdateAcceptsNoExercises: stated only for a request without a description. A `null`
  description behaves the same way through `TrimmedDescription`, but that case is not stated.
