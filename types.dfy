/** The record shapes and the enumerations every page shares: the records
    kept in the backend's collections (exercises, workouts, workout
    exercises, exercise sets, exercise progress), the three string unions
    as datatypes, and the three option tables the pages render. */
module Types {
  import opened Common

  /** How resistance is applied (`weightType`). */
  datatype WeightType = Bodyweight | Assisted | Weighted

  /** An exercise's role in a session (`exerciseType`). */
  datatype ExerciseType = Main | Auxiliary | Isolation

  /** A workout's life cycle (`status`). */
  datatype WorkoutStatus = Planned | Active | Completed

  /** A catalog entry owned by one user. `sets` and `reps` are the targets
      copied into every materialized set; optional text fields are `None`
      when absent from the record. */
  datatype Exercise = Exercise(
    id: string,
    userId: string,
    name: string,
    muscleGroup: string,
    weightType: WeightType,
    technique: Option<string>,
    sets: int,
    reps: int,
    equipmentSetup: Option<string>,
    exerciseType: ExerciseType,
    equipmentName: Option<string>,
    equipmentPhoto: Option<string>,
    createdAt: string,
    updatedAt: string)

  /** A workout as the pages use it, after `muscleGroups` has been decoded;
      `muscleGroup` is the older single-group field kept for compatibility. */
  datatype Workout = Workout(
    id: string,
    userId: string,
    name: string,
    muscleGroups: seq<string>,
    muscleGroup: Option<string>,
    status: WorkoutStatus,
    createdAt: string,
    completedAt: Option<string>)

  /** A row joining a workout to one exercise, at position `orderIndex`;
      `exercise` is the joined catalog entry, present only once loaded. */
  datatype WorkoutExercise = WorkoutExercise(
    id: string,
    workoutId: string,
    exerciseId: string,
    orderIndex: int,
    currentWeight: real,
    weightAchieved: int,
    createdAt: string,
    exercise: Option<Exercise>)

  /** One set of one workout exercise; `completed` is a boolean kept as 0/1. */
  datatype ExerciseSet = ExerciseSet(
    id: string,
    workoutExerciseId: string,
    setNumber: int,
    reps: int,
    weight: real,
    completed: int,
    createdAt: string)

  /** An append-only history record: the weight reached on one exercise in
      one completed workout and whether every set was done. */
  datatype ExerciseProgress = ExerciseProgress(
    id: string,
    userId: string,
    exerciseId: string,
    weight: real,
    achieved: int,
    workoutDate: string,
    createdAt: string)

  /** A set counts as done when `completed` is positive. */
  predicate IsDone(s: ExerciseSet) {
    s.completed > 0
  }

  /** `muscleGroups` as the store hands it back: some write paths keep a
      serialized string, others a native list, and old records have none. */
  datatype StoredGroups = Serialized(text: string) | Listed(groups: seq<string>) | Absent

  /** A workout record as persisted, before `muscleGroups` is decoded. */
  datatype StoredWorkout = StoredWorkout(
    id: string,
    userId: string,
    name: string,
    muscleGroups: StoredGroups,
    muscleGroup: Option<string>,
    status: WorkoutStatus,
    createdAt: string,
    completedAt: Option<string>)

  /** One entry of an option table: the stored value and its label (the
      source's `label`, a reserved word in Dafny). */
  datatype Choice = Choice(value: string, name: string)

  const MUSCLE_GROUPS: seq<string> :=
    ["Грудь", "Спина", "Плечи", "Бицепс", "Трицепс", "Ноги", "Пресс", "Предплечья"]

  const EXERCISE_TYPES: seq<Choice> := [
    Choice("main", "Основное"),
    Choice("auxiliary", "Вспомогательное"),
    Choice("isolation", "Изолированное")
  ]

  const WEIGHT_TYPES: seq<Choice> := [
    Choice("bodyweight", "Свой вес"),
    Choice("assisted", "Антивес"),
    Choice("weighted", "Доп. вес")
  ]

  /** The string literal of the `exerciseType` union for each type. */
  function ExerciseTypeValue(t: ExerciseType): string {
    match t
    case Main => "main"
    case Auxiliary => "auxiliary"
    case Isolation => "isolation"
  }

  /** The string literal of the `weightType` union for each type. */
  function WeightTypeValue(t: WeightType): string {
    match t
    case Bodyweight => "bodyweight"
    case Assisted => "assisted"
    case Weighted => "weighted"
  }

  /** The string literal of the `status` union for each status. */
  function StatusValue(s: WorkoutStatus): string {
    match s
    case Planned => "planned"
    case Active => "active"
    case Completed => "completed"
  }

  /** Reads a stored `status` string; anything outside the union is rejected. */
  function ParseStatus(v: string): (r: Option<WorkoutStatus>)
    ensures r.Some? ==> StatusValue(r.value) == v
    ensures r.None? ==> v != "planned" && v != "active" && v != "completed"
  {
    if v == "planned" then Some(Planned)
    else if v == "active" then Some(Active)
    else if v == "completed" then Some(Completed)
    else None
  }

  /** Reads a stored `exerciseType` string. */
  function ParseExerciseType(v: string): (r: Option<ExerciseType>)
    ensures r.Some? ==> ExerciseTypeValue(r.value) == v
    ensures r.None? ==> v != "main" && v != "auxiliary" && v != "isolation"
  {
    if v == "main" then Some(Main)
    else if v == "auxiliary" then Some(Auxiliary)
    else if v == "isolation" then Some(Isolation)
    else None
  }

  /** Reads a stored `weightType` string. */
  function ParseWeightType(v: string): (r: Option<WeightType>)
    ensures r.Some? ==> WeightTypeValue(r.value) == v
    ensures r.None? ==> v != "bodyweight" && v != "assisted" && v != "weighted"
  {
    if v == "bodyweight" then Some(Bodyweight)
    else if v == "assisted" then Some(Assisted)
    else if v == "weighted" then Some(Weighted)
    else None
  }

  /** `table.find(t => t.value === v)?.label`: the label of the first
      entry with that value, or nothing. */
  function FindLabel(table: seq<Choice>, v: string): (r: Option<string>)
    ensures r.Some? <==> exists i :: 0 <= i < |table| && table[i].value == v
    ensures r.Some? ==> exists i :: 0 <= i < |table| && table[i].value == v && table[i].name == r.value
                                   && forall j :: 0 <= j < i ==> table[j].value != v
  {
    if table == [] then None
    else if table[0].value == v then Some(table[0].name)
    else FindLabel(table[1..], v)
  }

  /** Each status is exactly one of the three literals: writing a status and
      reading it back gives the same status. */
  lemma StatusRoundTrip(s: WorkoutStatus)
    ensures ParseStatus(StatusValue(s)) == Some(s)
  {
  }

  /** The values of `EXERCISE_TYPES` are exactly the `exerciseType` union:
      every entry reads back as a type, and every type has a label. */
  lemma ExerciseTypesMatchUnion()
    ensures |EXERCISE_TYPES| == 3
    ensures forall i :: 0 <= i < |EXERCISE_TYPES| ==> ParseExerciseType(EXERCISE_TYPES[i].value).Some?
    ensures forall t :: FindLabel(EXERCISE_TYPES, ExerciseTypeValue(t)).Some?
  {
    forall t: ExerciseType ensures FindLabel(EXERCISE_TYPES, ExerciseTypeValue(t)).Some? {
      match t
      case Main => assert EXERCISE_TYPES[0].value == ExerciseTypeValue(t);
      case Auxiliary => assert EXERCISE_TYPES[1].value == ExerciseTypeValue(t);
      case Isolation => assert EXERCISE_TYPES[2].value == ExerciseTypeValue(t);
    }
  }

  /** The values of `WEIGHT_TYPES` are exactly the `weightType` union. */
  lemma WeightTypesMatchUnion()
    ensures |WEIGHT_TYPES| == 3
    ensures forall i :: 0 <= i < |WEIGHT_TYPES| ==> ParseWeightType(WEIGHT_TYPES[i].value).Some?
    ensures forall t :: FindLabel(WEIGHT_TYPES, WeightTypeValue(t)).Some?
  {
    forall t: WeightType ensures FindLabel(WEIGHT_TYPES, WeightTypeValue(t)).Some? {
      match t
      case Bodyweight => assert WEIGHT_TYPES[0].value == WeightTypeValue(t);
      case Assisted => assert WEIGHT_TYPES[1].value == WeightTypeValue(t);
      case Weighted => assert WEIGHT_TYPES[2].value == WeightTypeValue(t);
    }
  }

  /** `MUSCLE_GROUPS` holds eight distinct labels. */
  lemma MuscleGroupsDistinct()
    ensures |MUSCLE_GROUPS| == 8 && NoDup(MUSCLE_GROUPS)
  {
  }
}
