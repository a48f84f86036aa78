/** The workout generator page: the ordered set of chosen muscle groups,
    the chosen exercise types, random generation of a plan from the
    matching catalog entries, replacement of one planned exercise, and
    the saving of a plan as a workout with its workout-exercise rows. */
module Generator {
  import opened Common
  import opened Types

  /** The page's state. `exercises` is the user's catalog as loaded,
      `generatedWorkout` the plan on screen. */
  datatype GeneratorState = GeneratorState(
    exercises: seq<Exercise>,
    selectedMuscleGroups: seq<string>,
    selectedExerciseTypes: seq<ExerciseType>,
    exerciseCount: nat,
    generatedWorkout: seq<Exercise>)

  /** What saving writes to the store: one workout and its rows. */
  datatype SavedPlan = SavedPlan(workout: StoredWorkout, rows: seq<WorkoutExercise>)

  /** The state the page starts from and returns to after saving: nothing
      chosen except the main exercise type, three exercises asked for. */
  function InitialState(exercises: seq<Exercise>): GeneratorState {
    GeneratorState(exercises, [], [Main], 3, [])
  }

  /** `addMuscleGroup`: appends the group unless it is already chosen. */
  function AddMuscleGroup(groups: seq<string>, g: string): (r: seq<string>)
    ensures g in r
    ensures |groups| <= |r| <= |groups| + 1 && r[..|groups|] == groups
    ensures forall i :: 0 <= i < |r| ==> r[i] in groups || r[i] == g
    ensures NoDup(groups) ==> NoDup(r)
    ensures g in groups ==> r == groups
    ensures g !in groups ==> |r| == |groups| + 1
  {
    if g in groups then groups else groups + [g]
  }

  /** The groups other than `g`. */
  function Except(g: string): string -> bool {
    (x: string) => x != g
  }

  /** `removeMuscleGroup`: drops the group, keeping the others in order. */
  function RemoveMuscleGroup(groups: seq<string>, g: string): (r: seq<string>)
    ensures g !in r
    ensures forall i :: 0 <= i < |groups| && groups[i] != g ==> groups[i] in r
    ensures IsSubsequence(r, groups)
    ensures |r| == |Filter(groups, Except(g))|
    ensures NoDup(groups) ==> NoDup(r)
  {
    FilterIsSubsequence(groups, Except(g));
    if NoDup(groups) then
      FilterNoDup(groups, Except(g));
      Filter(groups, Except(g))
    else
      Filter(groups, Except(g))
  }

  /** Adding a group that was not chosen and removing it again restores
      the list. */
  lemma AddThenRemove(groups: seq<string>, g: string)
    requires g !in groups
    ensures RemoveMuscleGroup(AddMuscleGroup(groups, g), g) == groups
  {
    FilterAppendRejected(groups, g);
  }

  lemma {:induction false} FilterAppendRejected(groups: seq<string>, g: string)
    requires g !in groups
    ensures Filter(groups + [g], Except(g)) == groups
  {
    if groups == [] {
      assert Filter([g], Except(g)) == [] + Filter([], Except(g));
    } else {
      assert (groups + [g])[1..] == groups[1..] + [g];
      FilterAppendRejected(groups[1..], g);
    }
  }

  /** `toggleExerciseType`: removes a chosen type, appends one that is not. */
  function ToggleExerciseType(types: seq<ExerciseType>, t: ExerciseType): (r: seq<ExerciseType>)
    ensures t in types ==> t !in r
    ensures t !in types ==> t in r
    ensures forall x :: x != t ==> (x in r <==> x in types)
  {
    if t in types then
      var keep := (x: ExerciseType) => x != t;
      assert forall i :: 0 <= i < |types| && types[i] != t ==> types[i] in Filter(types, keep);
      Filter(types, keep)
    else types + [t]
  }

  /** Toggling a type twice leaves every type's membership as it was. */
  lemma ToggleTwice(types: seq<ExerciseType>, t: ExerciseType, x: ExerciseType)
    ensures x in ToggleExerciseType(ToggleExerciseType(types, t), t) <==> x in types
  {
  }

  /** An exercise matches the selection when both its muscle group and its
      type are chosen. */
  function MatchesSelection(groups: seq<string>, types: seq<ExerciseType>): Exercise -> bool {
    (e: Exercise) => e.muscleGroup in groups && e.exerciseType in types
  }

  /** The catalog entries the current selection admits, in catalog order. */
  function Matching(st: GeneratorState): seq<Exercise> {
    Filter(st.exercises, MatchesSelection(st.selectedMuscleGroups, st.selectedExerciseTypes))
  }

  /** The random reordering: each step moves the element at the index the
      next random number picks to the front of what is left. */
  function Shuffle<T>(s: seq<T>, rand: seq<nat>): (r: seq<T>)
    ensures |r| == |s| && multiset(r) == multiset(s)
    decreases |s|
  {
    if s == [] then []
    else
      var j := (if rand == [] then 0 else rand[0]) % |s|;
      var rest := s[..j] + s[j + 1..];
      RemoveAt(s, j);
      [s[j]] + Shuffle(rest, if rand == [] then [] else rand[1..])
  }

  /** Taking out the element at `j` leaves the others. */
  lemma RemoveAt<T>(s: seq<T>, j: nat)
    requires j < |s|
    ensures |s[..j] + s[j + 1..]| == |s| - 1
    ensures multiset(s) == multiset(s[..j] + s[j + 1..]) + multiset{s[j]}
  {
    assert s == s[..j] + [s[j]] + s[j + 1..];
  }

  /** Every permutation arises for some stream of random numbers. */
  lemma ShuffleReachesAll<T>(s: seq<T>, t: seq<T>)
    requires multiset(t) == multiset(s)
    ensures exists rand :: Shuffle(s, rand) == t
  {
    var rand := StreamFor(s, t);
  }

  /** A stream of random numbers that makes `Shuffle` produce `t`: at each
      step, the position in what is left of the next element of `t`. */
  lemma {:induction false} StreamFor<T>(s: seq<T>, t: seq<T>) returns (rand: seq<nat>)
    requires multiset(t) == multiset(s)
    ensures Shuffle(s, rand) == t
    decreases |s|
  {
    assert |t| == |s| by { assert |multiset(t)| == |multiset(s)|; }
    if s == [] {
      rand := [];
    } else {
      var j := FirstInSource(s, t);
      TailAfterRemoval(s, t, j);
      var tail := StreamFor(s[..j] + s[j + 1..], t[1..]);
      rand := [j] + tail;
      PickFirst(s, j, tail);
      assert t == [t[0]] + t[1..];
    }
  }

  /** The first element of a permutation of `s` has a position in `s`. */
  lemma FirstInSource<T>(s: seq<T>, t: seq<T>) returns (j: nat)
    requires multiset(t) == multiset(s) && t != []
    ensures j < |s| && s[j] == t[0]
  {
    assert t[0] in multiset(t);
    assert t[0] in s;
    j :| 0 <= j < |s| && s[j] == t[0];
  }

  /** A stream starting with `j < |s|` moves `s[j]` to the front. */
  lemma PickFirst<T>(s: seq<T>, j: nat, tail: seq<nat>)
    requires j < |s|
    ensures Shuffle(s, [j] + tail) == [s[j]] + Shuffle(s[..j] + s[j + 1..], tail)
  {
    var rand := [j] + tail;
    SmallRemainder(j, |s|);
    assert rand[1..] == tail;
  }

  lemma SmallRemainder(j: nat, n: nat)
    requires j < n
    ensures j % n == j
  {
  }

  /** Once the first element of `t` is taken out of `s`, the rest of `t`
      is a permutation of what is left. */
  lemma TailAfterRemoval<T>(s: seq<T>, t: seq<T>, j: nat)
    requires multiset(t) == multiset(s) && j < |s| && t != [] && s[j] == t[0]
    ensures multiset(t[1..]) == multiset(s[..j] + s[j + 1..])
  {
    RemoveAt(s, j);
    assert t == [t[0]] + t[1..];
    assert multiset(t) == multiset{t[0]} + multiset(t[1..]);
    assert multiset(t[1..]) == multiset(t) - multiset{t[0]};
  }

  /** `generateWorkout`: with no group chosen nothing happens; otherwise the
      plan becomes the first `min(exerciseCount, matches)` entries of a
      random permutation of the matching catalog entries. */
  function GenerateWorkout(st: GeneratorState, rand: seq<nat>): (r: GeneratorState)
    ensures r.(generatedWorkout := st.generatedWorkout) == st
    ensures |st.selectedMuscleGroups| == 0 ==> r == st
    ensures |st.selectedMuscleGroups| > 0 ==>
      && |r.generatedWorkout| == Min(st.exerciseCount, |Matching(st)|)
      && multiset(r.generatedWorkout) <= multiset(Matching(st))
    ensures forall i :: 0 <= i < |r.generatedWorkout| && |st.selectedMuscleGroups| > 0 ==>
      r.generatedWorkout[i].muscleGroup in st.selectedMuscleGroups &&
      r.generatedWorkout[i].exerciseType in st.selectedExerciseTypes
    ensures NoDup(st.exercises) && NoDup(st.generatedWorkout) ==> NoDup(r.generatedWorkout)
  {
    if |st.selectedMuscleGroups| == 0 then st
    else
      var filtered := Matching(st);
      if |filtered| == 0 then
        st.(generatedWorkout := [])
      else
        var shuffled := Shuffle(filtered, rand);
        var selected := shuffled[..Min(st.exerciseCount, |shuffled|)];
        SelectionFromCatalog(st, shuffled, |selected|);
        st.(generatedWorkout := selected)
  }

  /** A prefix of a permutation of the matching entries holds only
      matching entries, and no duplicate when the catalog has none. */
  lemma SelectionFromCatalog(st: GeneratorState, shuffled: seq<Exercise>, k: nat)
    requires multiset(shuffled) == multiset(Matching(st)) && k <= |shuffled|
    ensures multiset(shuffled[..k]) <= multiset(Matching(st))
    ensures forall i :: 0 <= i < k ==>
      shuffled[i].muscleGroup in st.selectedMuscleGroups &&
      shuffled[i].exerciseType in st.selectedExerciseTypes
    ensures NoDup(st.exercises) ==> NoDup(shuffled[..k])
  {
    var filtered := Matching(st);
    var selected := shuffled[..k];
    assert shuffled == selected + shuffled[k..];
    forall i | 0 <= i < k
      ensures shuffled[i].muscleGroup in st.selectedMuscleGroups
      ensures shuffled[i].exerciseType in st.selectedExerciseTypes
    {
      assert shuffled[i] in multiset(filtered);
      assert shuffled[i] in filtered;
    }
    if NoDup(st.exercises) {
      FilterMultiset(st.exercises, MatchesSelection(st.selectedMuscleGroups, st.selectedExerciseTypes));
      NoDupFromMultiset(selected, st.exercises);
    }
  }

  /** `getAvailableExercisesCount`: how many catalog entries the selection
      admits. */
  function AvailableCount(st: GeneratorState): (n: nat)
    ensures n <= |st.exercises|
  {
    |Matching(st)|
  }

  /** The counter shown beside the button bounds what generation yields:
      the plan has `min(exerciseCount, AvailableCount)` entries. */
  lemma GenerationUsesAvailableCount(st: GeneratorState, rand: seq<nat>)
    requires |st.selectedMuscleGroups| > 0
    ensures |GenerateWorkout(st, rand).generatedWorkout| == Min(st.exerciseCount, AvailableCount(st))
    ensures |GenerateWorkout(st, rand).generatedWorkout| <= AvailableCount(st)
  {
  }

  /** Some planned exercise has this id. */
  predicate UsesId(plan: seq<Exercise>, id: string) {
    exists i :: 0 <= i < |plan| && plan[i].id == id
  }

  /** A possible substitute for `current` in `plan`: same muscle group and
      type, and not already planned. */
  function SubstituteFor(current: Exercise, plan: seq<Exercise>): Exercise -> bool {
    (e: Exercise) =>
      e.muscleGroup == current.muscleGroup &&
      e.exerciseType == current.exerciseType &&
      !UsesId(plan, e.id)
  }

  /** `replaceExercise(index)`: with no substitute nothing happens; otherwise
      slot `index` gets the substitute `pick` selects and no other slot
      changes. */
  function ReplaceExercise(st: GeneratorState, index: nat, pick: nat): (r: GeneratorState)
    requires index < |st.generatedWorkout|
    ensures r.(generatedWorkout := st.generatedWorkout) == st
    ensures |r.generatedWorkout| == |st.generatedWorkout|
    ensures forall i :: 0 <= i < |st.generatedWorkout| && i != index ==>
      r.generatedWorkout[i] == st.generatedWorkout[i]
    ensures |Filter(st.exercises, SubstituteFor(st.generatedWorkout[index], st.generatedWorkout))| == 0 ==> r == st
    ensures |Filter(st.exercises, SubstituteFor(st.generatedWorkout[index], st.generatedWorkout))| > 0 ==>
      var old_ := st.generatedWorkout[index];
      var new_ := r.generatedWorkout[index];
      && new_ in st.exercises
      && new_.muscleGroup == old_.muscleGroup
      && new_.exerciseType == old_.exerciseType
      && !UsesId(st.generatedWorkout, new_.id)
      && new_ != old_
  {
    var current := st.generatedWorkout[index];
    var available := Filter(st.exercises, SubstituteFor(current, st.generatedWorkout));
    if |available| == 0 then st
    else
      var chosen := available[pick % |available|];
      assert SubstituteFor(current, st.generatedWorkout)(chosen);
      assert UsesId(st.generatedWorkout, current.id);
      st.(generatedWorkout := st.generatedWorkout[index := chosen])
  }

  /** `selectedMuscleGroups[0] || ''`. */
  function FirstGroup(groups: seq<string>): string {
    if |groups| > 0 then groups[0] else ""
  }

  /** The name a saved workout gets. */
  function WorkoutName(groups: seq<string>): string {
    if |groups| == 1 then "Тренировка " + groups[0]
    else "Тренировка " + Join(groups, ", ")
  }

  /** The one-group branch of the name agrees with the general one: the
      name is always the title followed by the groups joined by ", ". */
  lemma WorkoutNameIsJoin(groups: seq<string>)
    ensures WorkoutName(groups) == "Тренировка " + Join(groups, ", ")
  {
  }

  /** The user's progress records of one exercise. */
  function ProgressOf(userId: string, exerciseId: string): ExerciseProgress -> bool {
    (p: ExerciseProgress) => p.userId == userId && p.exerciseId == exerciseId
  }

  /** The weight of the most recent progress record of that exercise (the
      records are given most recent first), or 0 without one. */
  function LatestWeight(progress: seq<ExerciseProgress>, userId: string, exerciseId: string): (w: real)
    ensures var m := Filter(progress, ProgressOf(userId, exerciseId));
            w == if |m| > 0 then m[0].weight else 0.0
  {
    if progress == [] then 0.0
    else if progress[0].userId == userId && progress[0].exerciseId == exerciseId then progress[0].weight
    else LatestWeight(progress[1..], userId, exerciseId)
  }

  /** The store keeps progress records in the order they were written, and
      the query lists them newest first, that is reversed: after a record
      is written, it is the one whose weight the next plan starts from. */
  lemma LatestOfAppended(progress: seq<ExerciseProgress>, rec: ExerciseProgress)
    ensures LatestWeight(Reverse(progress + [rec]), rec.userId, rec.exerciseId) == rec.weight
  {
    ReverseAppend(progress, rec);
  }

  /** The row saving writes for plan position `i`. */
  function PlanRow(workoutId: string, e: Exercise, i: nat, weight: real, stamp: string, now: string): WorkoutExercise {
    WorkoutExercise("workout_exercise_" + stamp + "_" + NatToString(i), workoutId, e.id, i, weight, 0, now, None)
  }

  /** `saveWorkout`: with an empty plan nothing is written. Otherwise one
      planned workout, then one row per planned exercise in plan order,
      numbered 0, 1, ... and seeded with the exercise's latest weight; the
      page then returns to its initial selection. */
  method SaveWorkout(st: GeneratorState, userId: string, progress: seq<ExerciseProgress>, stamp: string, now: string)
    returns (saved: Option<SavedPlan>, next: GeneratorState)
    ensures |st.generatedWorkout| == 0 ==> saved.None? && next == st
    ensures |st.generatedWorkout| > 0 ==> saved.Some? && next == InitialState(st.exercises)
    ensures saved.Some? ==>
      var w := saved.value.workout;
      var rows := saved.value.rows;
      && w.userId == userId
      && w.status == Planned
      && w.muscleGroups == Listed(st.selectedMuscleGroups)
      && w.muscleGroup == Some(FirstGroup(st.selectedMuscleGroups))
      && w.name == WorkoutName(st.selectedMuscleGroups)
      && |rows| == |st.generatedWorkout|
      && forall i :: 0 <= i < |rows| ==>
           && rows[i].workoutId == w.id
           && rows[i].orderIndex == i
           && rows[i].exerciseId == st.generatedWorkout[i].id
           && rows[i].currentWeight == LatestWeight(progress, userId, st.generatedWorkout[i].id)
           && rows[i].weightAchieved == 0
  {
    if |st.generatedWorkout| == 0 {
      return None, st;
    }
    var groups := st.selectedMuscleGroups;
    var workout := StoredWorkout("workout_" + stamp, userId, WorkoutName(groups), Listed(groups),
                                 Some(FirstGroup(groups)), Planned, now, None);
    var rows: seq<WorkoutExercise> := [];
    for i := 0 to |st.generatedWorkout|
      invariant |rows| == i
      invariant forall k :: 0 <= k < i ==>
        rows[k] == PlanRow(workout.id, st.generatedWorkout[k], k,
                           LatestWeight(progress, userId, st.generatedWorkout[k].id), stamp, now)
    {
      var exercise := st.generatedWorkout[i];
      var lastWeight := LatestWeight(progress, userId, exercise.id);
      rows := rows + [PlanRow(workout.id, exercise, i, lastWeight, stamp, now)];
    }
    saved := Some(SavedPlan(workout, rows));
    next := InitialState(st.exercises);
  }
}
