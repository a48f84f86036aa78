# Workout tracker: page logic in Dafny

This project models the logic layer of a workout-tracking web client. Four
pages do the work, and all of them read and write a backend store of five
collections: exercises, workouts, workout exercises, exercise sets and
exercise progress.

- **Catalog** (module `Catalog`). The user's exercise catalog, with a
  case-insensitive name search and a muscle-group filter, and an editor form
  that creates or updates an exercise.
- **Generator** (module `Generator`). The user picks muscle groups and
  exercise types. A random plan is drawn from the matching catalog entries,
  and single slots can be swapped for an unused exercise of the same group
  and type. The plan is saved as a planned workout with one workout-exercise
  row per entry, seeded with the latest recorded weight.
- **Active workout** (module `ActiveWorkout`). The session the user works
  through, one exercise at a time, as the class `ActiveSession`. Its state:
  - the open workouts and the active one;
  - the roster of workout exercises joined with their catalog entries;
  - a cursor, the sets of the exercise at the cursor, and a stopwatch;
  - the substitutes offered for the current exercise.

  Sets are created the first time an exercise is shown. Completing the
  workout marks it completed, then appends one progress record per exercise
  and writes each row's `weightAchieved`.
- **History** (module `History`). Statistics of a completed workout, the
  weight trend of one exercise over its five latest records, and totals
  across workouts.

Module `Types` holds the record shapes and the three option tables. Module
`Common` holds generic sequence and number helpers, for example a filter
with its lemmas, decimal rendering and `Math.round`.

The store is a value (`ActiveWorkout.Store`) held in a field of the session
class. A `list` query is a filter that keeps stored order. An `update(id, …)`
rewrites every record with that id; an unknown id changes nothing. The
session's methods state the new store and the new page state
(`View()`) as functions of the old ones. Lemmas about those functions give
the properties the page relies on:
- idempotent set creation;
- toggle involution;
- cursor bounds;
- agreement between progress records and `weightAchieved`.

## Model

| member | source | states |
|---|---|---|
| Types.ParseStatus | src/types/index.ts:24 | a stored status string reads back only as one of the three literals; anything else is rejected |
| Types.StatusRoundTrip | src/types/index.ts:24 | writing a status and reading it back gives the same status |
| Types.ParseExerciseType | src/types/index.ts:11 | only the three `exerciseType` literals are accepted, each back to its own type |
| Types.ParseWeightType | src/types/index.ts:6 | only the three `weightType` literals are accepted, each back to its own type |
| Types.FindLabel | src/types/index.ts:71-75 | the label lookup finds a label exactly when some entry has that value, and the label is that of the first such entry |
| Types.ExerciseTypesMatchUnion | src/types/index.ts:71-75 | the three table values are exactly the exercise-type union, so every type has a label |
| Types.WeightTypesMatchUnion | src/types/index.ts:77-81 | the three table values are exactly the weight-type union, so every type has a label |
| Types.MuscleGroupsDistinct | src/types/index.ts:60-69 | eight muscle-group labels, pairwise distinct |
| Catalog.ToLowerIdempotent | src/components/ExercisesPage.tsx:125 | lower-casing is idempotent |
| Catalog.FilteredExercises | src/components/ExercisesPage.tsx:124-128 | the shown exercises are an order-preserving subsequence of the loaded ones, as many as there are matches; each matches the search and group, and every match is shown |
| Catalog.EmptySearchKeepsAll | src/components/ExercisesPage.tsx:124-128 | an empty search with group `all` shows every exercise, in order |
| Catalog.SearchIgnoresCase | src/components/ExercisesPage.tsx:125 | lower-casing the search term does not change the result |
| Catalog.SetsInput | src/components/ExercisesPage.tsx:252 | text that does not parse, or parses to 0, gives 3; any other parsed number is taken as it is; the result is never 0 |
| Catalog.RepsInput | src/components/ExercisesPage.tsx:264 | text that does not parse, or parses to 0, gives 10; any other parsed number is taken as it is; the result is never 0 |
| Catalog.FormOf | src/components/ExercisesPage.tsx:98-113 | the form copies name, group, both types, sets and reps; each of technique, equipment setup, equipment name and photo is copied when present and becomes empty text when missing |
| Catalog.EditUnchangedRoundTrip | src/components/ExercisesPage.tsx:75-79 | opening an exercise and saving it unchanged only stamps `updatedAt`, when its optional fields are present |
| Catalog.UpdateById | src/components/ExercisesPage.tsx:76-79 | a record with the edited id takes all ten form fields (the four optional ones as present values) and the new `updatedAt`, and keeps its id, owner and `createdAt`; other records are untouched; the length is unchanged |
| Catalog.ExerciseEditor.constructor | src/components/ExercisesPage.tsx:20-33 | nothing is being edited, the form is at its defaults and the dialog is closed |
| Catalog.ExerciseEditor.ResetForm | src/components/ExercisesPage.tsx:35-49 | the editing target is cleared and the form is back at its defaults (3 sets, 10 reps, weighted, main); the store is unchanged |
| Catalog.ExerciseEditor.HandleEdit | src/components/ExercisesPage.tsx:98-113 | the exercise becomes the editing target, the form is `FormOf` it, and the dialog opens |
| Catalog.ExerciseEditor.ChangeSets | src/components/ExercisesPage.tsx:252 | only the form's sets field changes, to the input's fallback-aware value |
| Catalog.ExerciseEditor.ChangeReps | src/components/ExercisesPage.tsx:264 | only the form's reps field changes, to the input's fallback-aware value |
| Catalog.ExerciseEditor.HandleSubmit | src/components/ExercisesPage.tsx:70-96 | editing updates the edited id from the form; otherwise one new record owned by the user is appended; then the form resets and the dialog closes |
| History.CompletedSetsBounded | src/components/HistoryPage.tsx:83-87 | there are never more done sets than sets |
| History.CompletedSetsAllDone | src/components/HistoryPage.tsx:83-87 | when every set is done, the done count equals the set count |
| History.CompletionRate | src/components/HistoryPage.tsx:99 | the rate lies in [0, 100]; it is 0 without sets or without done sets, and 100 when all sets are done; with sets, it is within one half of `100 * completed / total`, as `Math.round` gives |
| History.GetWorkoutStats | src/components/HistoryPage.tsx:82-101 | the totals are the set counts and the rounded tonnage; the achieved count is the number of exercises marked achieved; the rate is `CompletionRate` of the done and total set counts, so it is in [0, 100] and is 0 without sets |
| Common.Round | src/components/HistoryPage.tsx:97 | the result is within one half of the argument, halves rounding up |
| History.NewestEndsTrend | src/components/HistoryPage.tsx:65-68 | listing the store newest first, a progress record just written is the last point of its exercise's trend |
| History.GetExerciseProgressTrend | src/components/HistoryPage.tsx:103-117 | no trend for fewer than two records; otherwise 2 to 5 points, up/down/stable exactly by comparing the last point with the first, and the change is their absolute difference |
| History.TrendPointsAreLatest | src/components/HistoryPage.tsx:104-107 | the points are the exercise's latest records (at most five), oldest first, all of that exercise |
| History.GetTotalStats | src/components/HistoryPage.tsx:129-138 | counts the workouts; the set and weight totals are the sums of the per-workout stats; the mean completion is in [0, 100] and within one half of the mean of the per-workout rates; with no workouts every total is 0 |
| History.RatesBounded | src/components/HistoryPage.tsx:133-135 | the summed completion rates of n workouts lie in [0, 100 n] |
| Generator.AddMuscleGroup | src/components/WorkoutGeneratorPage.tsx:37-41 | a group already chosen leaves the list as it is; an absent group is appended at the end; no duplicate is introduced |
| Generator.RemoveMuscleGroup | src/components/WorkoutGeneratorPage.tsx:43-45 | the group is gone; every other group stays, in order and with its count; no duplicate is introduced |
| Generator.AddThenRemove | src/components/WorkoutGeneratorPage.tsx:37-45 | adding an absent group and removing it restores the list |
| Generator.ToggleExerciseType | src/components/WorkoutGeneratorPage.tsx:152-158 | a chosen type is removed and an absent one is added; every other type keeps its membership |
| Generator.ToggleTwice | src/components/WorkoutGeneratorPage.tsx:152-158 | toggling twice restores every type's membership |
| Generator.Shuffle | src/components/WorkoutGeneratorPage.tsx:61 | the shuffled list is a permutation of its input |
| Generator.ShuffleReachesAll | src/components/WorkoutGeneratorPage.tsx:61 | every permutation of the input is the result for some stream of random numbers |
| Generator.StreamFor | src/components/WorkoutGeneratorPage.tsx:61 | builds the stream of random numbers that makes the shuffle produce a given permutation |
| Generator.GenerateWorkout | src/components/WorkoutGeneratorPage.tsx:47-66 | nothing changes with no group chosen; otherwise the plan has `min(count, matches)` entries, drawn from the matching entries (a sub-multiset), all with a chosen group and type, and duplicate-free when the catalog is |
| Generator.SelectionFromCatalog | src/components/WorkoutGeneratorPage.tsx:62-63 | a prefix of a permutation of the matches holds only matching entries, without duplicates when the catalog has none |
| Generator.AvailableCount | src/components/WorkoutGeneratorPage.tsx:160-165 | the count of matching entries is at most the catalog size |
| Generator.GenerationUsesAvailableCount | src/components/WorkoutGeneratorPage.tsx:51-54 | generation yields `min(count, available count)` entries, the same filter the counter uses |
| Generator.ReplaceExercise | src/components/WorkoutGeneratorPage.tsx:68-84 | without a substitute nothing changes; otherwise only the slot changes, to a catalog entry of the same group and type that was not planned |
| Generator.WorkoutNameIsJoin | src/components/WorkoutGeneratorPage.tsx:95-97 | the one-group name equals the general joined form |
| Generator.LatestWeight | src/components/WorkoutGeneratorPage.tsx:115-124 | the weight of the most recent progress record of that exercise and user, or 0 without one |
| Generator.LatestOfAppended | src/components/WorkoutGeneratorPage.tsx:115-124 | listing the store newest first, a progress record just written gives the weight a new plan starts from |
| Generator.SaveWorkout | src/components/WorkoutGeneratorPage.tsx:86-150 | an empty plan writes nothing; otherwise one planned workout with the chosen groups, the legacy first group and the name; one row per entry with `orderIndex` i, the latest weight and `weightAchieved` 0; the page returns to its initial selection |
| ActiveWorkout.FormatTime | src/components/ActiveWorkoutPage.tsx:35-39 | at least five characters with the colon third from the end; exactly `mm:ss` below 100 minutes |
| ActiveWorkout.TwoDigits | src/components/ActiveWorkoutPage.tsx:38 | at least two characters, exactly two below 100 |
| ActiveWorkout.FormatTimeRoundTrip | src/components/ActiveWorkoutPage.tsx:35-39 | the text reads back as whole minutes before the colon and the remaining seconds (below 60) after it, which make up the elapsed time |
| ActiveWorkout.ProgressPercent | src/components/ActiveWorkoutPage.tsx:369 | no number for an empty roster; otherwise `(index + 1) * 100 / count`, which lies in (0, 100] and is 100 exactly at the last exercise |
| ActiveWorkout.WeightInput | src/components/ActiveWorkoutPage.tsx:500 | text that does not parse gives 0, otherwise the parsed weight |
| ActiveWorkout.DecodeMuscleGroups | src/components/ActiveWorkoutPage.tsx:134-145 | a list is kept, parsed text is used, and a missing field or unparsable text falls back to the legacy group (or empty text); the result is empty only when the store held an empty list |
| ActiveWorkout.OpenWorkoutsOrder | src/components/ActiveWorkoutPage.tsx:125-145 | the decoded open workouts are a subsequence of all decoded stored workouts |
| ActiveWorkout.OpenWorkoutsMembers | src/components/ActiveWorkoutPage.tsx:125-145 | the decoded open workouts are the user's planned or active ones, every one of them |
| ActiveWorkout.OpenWorkouts | src/components/ActiveWorkoutPage.tsx:125-145 | only the user's planned or active workouts, each decoded, and every one of them, in stored order and with the same count as the stored matches |
| ActiveWorkout.FirstActive | src/components/ActiveWorkoutPage.tsx:150 | the position of the first active workout, or none when none is active |
| ActiveWorkout.SelectWorkout | src/components/ActiveWorkoutPage.tsx:149-155 | none exactly for an empty list; the first active workout when there is one; otherwise the first workout |
| ActiveWorkout.WithStatus | src/components/ActiveWorkoutPage.tsx:89-91 | records with the id get the status; others are untouched |
| ActiveWorkout.WithCompletion | src/components/ActiveWorkoutPage.tsx:228-231 | records with the id become completed with the completion time; others are untouched |
| ActiveWorkout.CompletedWorkoutNotReopened | src/components/ActiveWorkoutPage.tsx:125-131 | after completion the workout is not among the open workouts the page lists |
| ActiveWorkout.FindExercise | src/components/ActiveWorkoutPage.tsx:102-106 | a catalog entry with the id, or none exactly when no entry has it |
| ActiveWorkout.RosterOrder | src/components/ActiveWorkoutPage.tsx:94-110 | apart from the join, the roster is a subsequence of the stored rows |
| ActiveWorkout.RosterMembers | src/components/ActiveWorkoutPage.tsx:94-110 | the roster holds the workout's joined rows and every one of them |
| ActiveWorkout.Roster | src/components/ActiveWorkoutPage.tsx:94-110 | exactly the workout's stored rows, in stored order and with the same count, each joined with the catalog entry of its exercise id |
| ActiveWorkout.WithExerciseId | src/components/ActiveWorkoutPage.tsx:315-317 | the row with the id points at the new exercise; others are untouched |
| ActiveWorkout.SubstitutionJoinsNewExercise | src/components/ActiveWorkoutPage.tsx:312-325 | after a substitution, the reloaded row refers to the new exercise and carries its catalog entry |
| ActiveWorkout.CandidatesOrder | src/components/ActiveWorkoutPage.tsx:290-300 | the two-stage filter keeps catalog order and equals one pass with both tests |
| ActiveWorkout.CandidatesMembers | src/components/ActiveWorkoutPage.tsx:290-300 | the candidates are the user's unused entries of the current group and type, every one of them |
| ActiveWorkout.Candidates | src/components/ActiveWorkoutPage.tsx:290-300 | every candidate is the user's, with the current group and type, and unused in the workout; every such catalog entry is a candidate; the candidates keep catalog order and are as many as the entries passing both tests in one pass |
| ActiveWorkout.SetsOf | src/components/ActiveWorkoutPage.tsx:66-69 | exactly the stored sets of that workout exercise, in stored order and with the same count |
| ActiveWorkout.MaterializedSetsShape | src/components/ActiveWorkoutPage.tsx:41-58 | the created sets number 1..N for the exercise's target N; each has the target reps and the current weight, `completed` 0 (not done), and a distinct id |
| ActiveWorkout.AfterVisit | src/components/ActiveWorkoutPage.tsx:64-82 | a workout exercise with stored sets changes nothing; one without gets exactly its own materialized sets |
| ActiveWorkout.VisitTwice | src/components/ActiveWorkoutPage.tsx:64-82 | showing an exercise a second time creates nothing and shows the same sets |
| ActiveWorkout.CreatedOnVisit | src/components/ActiveWorkoutPage.tsx:72-78 | a visit only appends, the target's number of sets, with its reps, numbered from 1 |
| ActiveWorkout.CreatedOnVisitAsWritten | src/components/ActiveWorkoutPage.tsx:74-77 | as written, the sets created take their definition from the exercise at the stale cursor |
| ActiveWorkout.StaleCursorCounterexample | src/components/ActiveWorkoutPage.tsx:74-77 | two exercises for which the as-written creation makes no sets on first load and the wrong count and reps on moving on |
| ActiveWorkout.WithCompleted | src/components/ActiveWorkoutPage.tsx:186-188 | the set with the id gets the new value; others are untouched |
| ActiveWorkout.WithWeight | src/components/ActiveWorkoutPage.tsx:197-199 | the set with the id gets the new weight; others are untouched |
| ActiveWorkout.FindSet | src/components/ActiveWorkoutPage.tsx:180 | a shown set with the id, or none exactly when no set has it |
| ActiveWorkout.FindSetUnique | src/components/ActiveWorkoutPage.tsx:180 | with distinct ids, the set found is the one with that id |
| ActiveWorkout.ToggleSets | src/components/ActiveWorkoutPage.tsx:178-192 | only `completed` of the set with the id changes: a positive value becomes 0 and any other becomes 1, so done and not done swap; an unknown id changes nothing |
| ActiveWorkout.ToggleTwice | src/components/ActiveWorkoutPage.tsx:183 | toggling a set twice restores a 0/1 list with distinct ids |
| ActiveWorkout.WeightEditKeepsDone | src/components/ActiveWorkoutPage.tsx:194-203 | editing a weight never changes how many sets are done |
| ActiveWorkout.DeleteAllRemoves | src/components/ActiveWorkoutPage.tsx:320-322 | after the deletions no stored set has a deleted id, and every other stored set remains |
| ActiveWorkout.AchievedFlag | src/components/ActiveWorkoutPage.tsx:240-241 | 0 or 1, and 1 exactly when every set is done (also with no sets) |
| ActiveWorkout.AverageWeight | src/components/ActiveWorkoutPage.tsx:244-246 | the current weight without sets; otherwise the value that times the set count gives the summed weight |
| ActiveWorkout.AverageWithin | src/components/ActiveWorkoutPage.tsx:244-246 | the recorded weight lies between the lightest and the heaviest set |
| ActiveWorkout.NoSetsCountsAsAchieved | src/components/ActiveWorkoutPage.tsx:240-246 | an exercise with no sets is recorded as achieved at its current weight |
| ActiveWorkout.ProgressRecords | src/components/ActiveWorkoutPage.tsx:235-256 | one record per roster entry, in order, for that exercise and user, with `achieved` and the average weight taken from its stored sets |
| ActiveWorkout.WithAchieved | src/components/ActiveWorkoutPage.tsx:259-261 | the row with the id gets the flag; others are untouched |
| ActiveWorkout.MarkAchievedAgrees | src/components/ActiveWorkoutPage.tsx:259-261 | after the writes, each roster row's stored `weightAchieved` says whether all its sets were done; other rows are untouched |
| ActiveWorkout.CompletionConsistent | src/components/ActiveWorkoutPage.tsx:248-261 | each row's stored `weightAchieved` equals the `achieved` of that exercise's new progress record |
| ActiveWorkout.RecordedStep | src/components/ActiveWorkoutPage.tsx:235-262 | recording one more exercise appends one record and writes one row's flag |
| ActiveWorkout.Processed | src/components/ActiveWorkoutPage.tsx:235-262 | the loop records at most every exercise, and every one when no store call fails |
| ActiveWorkout.ActiveSession.constructor | src/components/ActiveWorkoutPage.tsx:16-25 | the page opens empty: no workouts, nothing active, cursor 0, stopwatch at zero and stopped |
| ActiveWorkout.ActiveSession.ResetTimer | src/components/ActiveWorkoutPage.tsx:27-30 | the stopwatch is at zero and stopped; nothing else changes |
| ActiveWorkout.ActiveSession.StartTimer | src/components/ActiveWorkoutPage.tsx:32 | the stopwatch runs; nothing else changes |
| ActiveWorkout.ActiveSession.PauseTimer | src/components/ActiveWorkoutPage.tsx:33 | the stopwatch stops; nothing else changes |
| ActiveWorkout.ActiveSession.Tick | src/components/ActiveWorkoutPage.tsx:168-176 | one second is added only while the stopwatch runs |
| ActiveWorkout.ActiveSession.CreateSetsForExercise | src/components/ActiveWorkoutPage.tsx:41-62 | the loop appends the materialized sets to the store one by one and then shows them; a row without a catalog entry changes nothing |
| ActiveWorkout.ActiveSession.LoadExerciseSets | src/components/ActiveWorkoutPage.tsx:64-82 | the store becomes `AfterVisit` and the shown sets `ShownAfterVisit` of the old store |
| ActiveWorkout.ActiveSession.StartWorkout | src/components/ActiveWorkoutPage.tsx:84-120 | the workout becomes active (in the store too unless it already was); the roster is loaded with the cursor at 0; the first exercise is visited |
| ActiveWorkout.ActiveSession.LoadWorkouts | src/components/ActiveWorkoutPage.tsx:122-161 | the open workouts are listed; the one `SelectWorkout` picks is started, and nothing else happens when the list is empty |
| ActiveWorkout.ActiveSession.ToggleSetCompletion | src/components/ActiveWorkoutPage.tsx:178-192 | an unknown id changes nothing; otherwise the flipped value is written to the store and the shown list becomes `ToggleSets` |
| ActiveWorkout.ActiveSession.UpdateSetWeight | src/components/ActiveWorkoutPage.tsx:194-203 | the weight is written to the store and to the shown set; nothing else changes |
| ActiveWorkout.ActiveSession.NextExercise | src/components/ActiveWorkoutPage.tsx:205-212 | the cursor stays in the roster; it moves on only before the last exercise, visits it and resets the stopwatch; otherwise nothing changes |
| ActiveWorkout.ActiveSession.PreviousExercise | src/components/ActiveWorkoutPage.tsx:214-221 | the cursor stays in the roster; it moves back only after the first exercise, visits it and resets the stopwatch; otherwise nothing changes |
| ActiveWorkout.ActiveSession.LoadAvailableExercises | src/components/ActiveWorkoutPage.tsx:279-306 | the substitutes become `Candidates` for the exercise at the cursor; nothing changes without an active workout, a current exercise or its catalog entry |
| ActiveWorkout.ActiveSession.ReplaceExercise | src/components/ActiveWorkoutPage.tsx:308-330 | the row at the cursor points at the new exercise, the shown sets are deleted from the store, and the workout is started again |
| ActiveWorkout.ActiveSession.DeleteSets | src/components/ActiveWorkoutPage.tsx:320-322 | the loop deletes the given sets from the store one id at a time; the page is unchanged |
| ActiveWorkout.ActiveSession.RecordExercise | src/components/ActiveWorkoutPage.tsx:236-261 | one progress record from the exercise's stored sets is appended, and its row's `weightAchieved` is written |
| ActiveWorkout.ActiveSession.RecordCompletion | src/components/ActiveWorkoutPage.tsx:228-262 | the completion is written first, then the first k exercises are recorded in order |
| ActiveWorkout.ActiveSession.CompleteWorkout | src/components/ActiveWorkoutPage.tsx:223-277 | without an active workout nothing happens; otherwise the store holds the completion and the records of the exercises processed before any failure; the page is cleared only when all were recorded |
| ActiveWorkout.ActiveSession.ClearSession | src/components/ActiveWorkoutPage.tsx:264-269 | nothing is active, the roster and sets are empty, the cursor is 0 and the stopwatch is reset; the store is unchanged |

## Left out

- Network, authentication and rendering. The store is a value, and the current user's id is a parameter. The JSX, dialogs, badges, colours and icons are not modelled, and neither is `src/App.tsx`.
- Ordering of queries.
  - Sets are taken to be stored by set number, and rows by `orderIndex`; for these, `orderBy` is stored order.
  - The session's stored workouts are taken as given, most recent first. The session never adds a workout, so `OpenWorkouts` keeps stored order.
  - The session and the catalog editor append new progress records and exercises at the end of the store, so the store is oldest first.
  - The queries that list progress by `workoutDate` descending, and exercises by `createdAt` descending, return the store reversed. History, Generator and the catalog filter receive that newest-first list as a parameter. `LatestOfAppended` and `NewestEndsTrend` connect the two orders.
  - Records written by one completion share a timestamp. The source leaves their relative order open; the model takes them newest written first.
- Concurrency. `Promise.all` fan-out and the asynchronous `await`s become sequential steps. React's batching of state updates is not modelled, except where the Findings table makes it observable.
- Timing and randomness are parameters, not real effects:
  - the one-second interval is the `Tick` method;
  - `Date.now()` and ISO timestamps are the string parameters `stamp` and `now`;
  - `Math.random` is a stream of naturals for the shuffle and an index for the substitute pick.
- ActiveWorkout.ActiveSession.CreateSetsForExercise: every set of one call uses the same clock reading, and every record of one completion uses the same clock reading.
- ActiveWorkout.ProgressPercent: for an empty roster the page divides by zero and shows `Infinity` percent; the model gives `None` there.
- Generator.Shuffle: `sort` with a random comparator becomes a move-to-front permutation driven by the random stream. The model reaches every permutation (`ShuffleReachesAll`), but the engine's sort algorithm and the skewed distribution it gives are not modelled.
- `JSON.parse` is a function parameter, where `None` stands for a parse error.
- `toLowerCase` maps only Latin A-Z and Cyrillic capitals; other Unicode case mapping is out of scope.
- Weights are real numbers, not IEEE doubles.
- Catalog.ExerciseEditor.HandleSubmit: the reload after saving is not modelled. The store is updated in place, and a store failure, which would leave the form open, is not modelled.
- ActiveWorkout.ActiveSession.CompleteWorkout: the success alert and the error alert are out of scope. The final `loadWorkouts()` is the separate `LoadWorkouts` method, and `CompletedWorkoutNotReopened` states what it then lists. A failing store call is modelled only as a failure at the start of one exercise, through `failsAt`.
- Two behaviours are kept as the code has them:
  - an exercise with no sets counts as achieved (`NoSetsCountsAsAchieved`);
  - the completion is written before any exercise is recorded, so it persists when a later call fails (`RecordCompletion`).
- ActiveWorkout.ActiveSession.ReplaceExercise: as the code does, the workout is started again, which puts the cursor back on the first exercise. The documented behaviour keeps the cursor where it was; the model follows the code. The replace-dialog flag is not modelled.
- The page's `loading` flag is not modelled.
- Generator.ReplaceExercise requires a slot index inside the plan, because the page only calls it from a rendered slot.
- `exerciseCount` is a natural number.
- Deleting a catalog exercise (`handleDelete`) and the date formatting on the history page are not modelled.
- Loading the catalog and the history collections is not modelled: those are plain store reads.

## Findings

| source | as written | input that shows it | evidently intended | confidence | as-written member | corrected member |
|---|---|---|---|---|---|---|
| src/components/ActiveWorkoutPage.tsx:74 | `loadExerciseSets` takes the exercise whose sets it creates from the roster and cursor of the render its handler was created in, not from the id it is given | two exercises with 3×10 and 4×12 targets: on the first load the roster it sees is empty and no set is created; moving on creates 3 sets with 10 reps for the second exercise | the sets of the exercise with the given id, 3 then 4 sets, with that exercise's reps | medium, not executed | ActiveWorkout.CreatedOnVisitAsWritten, ActiveWorkout.StaleCursorCounterexample | ActiveWorkout.AfterVisit |
