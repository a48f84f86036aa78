/** The exercise catalog page: the search and muscle-group filter over the
    loaded exercises, and the editor form whose state the page resets,
    fills from an exercise, edits and submits as a create or an update. */
module Catalog {
  import opened Common
  import opened Types

  /** Lower-case mapping of one character: Latin A-Z, Cyrillic А-Я and the
      Cyrillic letters Ѐ-Џ; every other character is left as it is. */
  function LowerChar(c: char): char {
    if 'A' <= c <= 'Z' then (c as int + 32) as char
    else if 'А' <= c <= 'Я' then (c as int + 32) as char
    else if 'Ѐ' <= c <= 'Џ' then (c as int + 80) as char
    else c
  }

  /** `s.toLowerCase()`, character by character. */
  function ToLower(s: string): (r: string)
    ensures |r| == |s|
  {
    seq(|s|, i requires 0 <= i < |s| => LowerChar(s[i]))
  }

  /** Lower-casing twice is lower-casing once. */
  lemma ToLowerIdempotent(s: string)
    ensures ToLower(ToLower(s)) == ToLower(s)
  {
  }

  /** The filter's test: the lower-cased name contains the lower-cased
      search term, and the group is `all` or the exercise's own. */
  function MatchesFilter(searchTerm: string, selectedMuscleGroup: string): Exercise -> bool {
    (e: Exercise) =>
      Contains(ToLower(e.name), ToLower(searchTerm)) &&
      (selectedMuscleGroup == "all" || e.muscleGroup == selectedMuscleGroup)
  }

  /** `filteredExercises`: the exercises that pass the test, in the order
      they were loaded. */
  function FilteredExercises(exercises: seq<Exercise>, searchTerm: string, selectedMuscleGroup: string): (r: seq<Exercise>)
    ensures IsSubsequence(r, exercises)
    ensures |r| == |Filter(exercises, MatchesFilter(searchTerm, selectedMuscleGroup))|
    ensures forall i :: 0 <= i < |r| ==>
      Contains(ToLower(r[i].name), ToLower(searchTerm)) &&
      (selectedMuscleGroup == "all" || r[i].muscleGroup == selectedMuscleGroup)
    ensures forall i :: 0 <= i < |exercises| && MatchesFilter(searchTerm, selectedMuscleGroup)(exercises[i]) ==>
      exercises[i] in r
  {
    FilterIsSubsequence(exercises, MatchesFilter(searchTerm, selectedMuscleGroup));
    Filter(exercises, MatchesFilter(searchTerm, selectedMuscleGroup))
  }

  /** With an empty search term and every group, the page shows every
      exercise, in order. */
  lemma EmptySearchKeepsAll(exercises: seq<Exercise>)
    ensures FilteredExercises(exercises, "", "all") == exercises
  {
    forall e | e in exercises ensures MatchesFilter("", "all")(e) {
      ContainsEmpty(ToLower(e.name));
    }
    FilterKeepsAll(exercises, MatchesFilter("", "all"));
  }

  /** The search ignores the case of the term. */
  lemma SearchIgnoresCase(exercises: seq<Exercise>, searchTerm: string, selectedMuscleGroup: string)
    ensures FilteredExercises(exercises, ToLower(searchTerm), selectedMuscleGroup)
         == FilteredExercises(exercises, searchTerm, selectedMuscleGroup)
  {
    ToLowerIdempotent(searchTerm);
    assert MatchesFilter(ToLower(searchTerm), selectedMuscleGroup) == MatchesFilter(searchTerm, selectedMuscleGroup);
  }

  /** The editor form's fields. */
  datatype FormData = FormData(
    name: string,
    muscleGroup: string,
    weightType: WeightType,
    technique: string,
    sets: int,
    reps: int,
    equipmentSetup: string,
    exerciseType: ExerciseType,
    equipmentName: string,
    equipmentPhoto: string)

  /** The form as the page opens it and as `resetForm` restores it. */
  const DefaultForm := FormData("", "", Weighted, "", 3, 10, "", Main, "", "")

  /** `parseInt(text) || fallback`: `None` stands for a text that does not
      parse (NaN); NaN and 0 both give the fallback. */
  function ParsedOr(parsed: Option<int>, fallback: int): (r: int)
    ensures parsed.None? || parsed == Some(0) ==> r == fallback
    ensures parsed.Some? && parsed.value != 0 ==> r == parsed.value
    ensures fallback != 0 ==> r != 0
  {
    match parsed
    case None => fallback
    case Some(n) => if n != 0 then n else fallback
  }

  /** The sets input: falls back to 3. */
  function SetsInput(parsed: Option<int>): (r: int)
    ensures r != 0
    ensures parsed.None? || parsed == Some(0) ==> r == 3
    ensures parsed.Some? && parsed.value != 0 ==> r == parsed.value
  {
    ParsedOr(parsed, 3)
  }

  /** The reps input: falls back to 10. */
  function RepsInput(parsed: Option<int>): (r: int)
    ensures r != 0
    ensures parsed.None? || parsed == Some(0) ==> r == 10
    ensures parsed.Some? && parsed.value != 0 ==> r == parsed.value
  {
    ParsedOr(parsed, 10)
  }

  /** `handleEdit`'s copy of an exercise into the form. */
  function FormOf(e: Exercise): (f: FormData)
    ensures f.name == e.name && f.muscleGroup == e.muscleGroup
    ensures f.sets == e.sets && f.reps == e.reps
    ensures f.weightType == e.weightType && f.exerciseType == e.exerciseType
    ensures e.technique.Some? ==> f.technique == e.technique.value
    ensures e.technique.None? ==> f.technique == ""
    ensures e.equipmentSetup.Some? ==> f.equipmentSetup == e.equipmentSetup.value
    ensures e.equipmentSetup.None? ==> f.equipmentSetup == ""
    ensures e.equipmentName.Some? ==> f.equipmentName == e.equipmentName.value
    ensures e.equipmentName.None? ==> f.equipmentName == ""
    ensures e.equipmentPhoto.Some? ==> f.equipmentPhoto == e.equipmentPhoto.value
    ensures e.equipmentPhoto.None? ==> f.equipmentPhoto == ""
  {
    FormData(e.name, e.muscleGroup, e.weightType, OrEmpty(e.technique), e.sets, e.reps,
             OrEmpty(e.equipmentSetup), e.exerciseType, OrEmpty(e.equipmentName), OrEmpty(e.equipmentPhoto))
  }

  /** The update of an existing record: the form's fields overwrite the
      record's, and `updatedAt` is stamped; id, owner and creation time stay. */
  function ApplyForm(e: Exercise, f: FormData, now: string): Exercise {
    e.(name := f.name, muscleGroup := f.muscleGroup, weightType := f.weightType,
       technique := Some(f.technique), sets := f.sets, reps := f.reps,
       equipmentSetup := Some(f.equipmentSetup), exerciseType := f.exerciseType,
       equipmentName := Some(f.equipmentName), equipmentPhoto := Some(f.equipmentPhoto),
       updatedAt := now)
  }

  /** The record a create writes. */
  function NewExercise(id: string, userId: string, f: FormData, now: string): Exercise {
    Exercise(id, userId, f.name, f.muscleGroup, f.weightType, Some(f.technique), f.sets, f.reps,
             Some(f.equipmentSetup), f.exerciseType, Some(f.equipmentName), Some(f.equipmentPhoto), now, now)
  }

  /** Opening an exercise for editing and saving it without a change only
      stamps `updatedAt`, when its optional fields are all present. */
  lemma EditUnchangedRoundTrip(e: Exercise, now: string)
    requires e.technique.Some? && e.equipmentSetup.Some? && e.equipmentName.Some? && e.equipmentPhoto.Some?
    ensures ApplyForm(e, FormOf(e), now) == e.(updatedAt := now)
  {
  }

  /** `exercises.update(id, ...)` on the stored collection: every record
      with that id is overwritten from the form; no other record changes. */
  function UpdateById(rows: seq<Exercise>, id: string, f: FormData, now: string): (r: seq<Exercise>)
    ensures |r| == |rows|
    ensures forall i :: 0 <= i < |rows| && rows[i].id != id ==> r[i] == rows[i]
    ensures forall i :: 0 <= i < |rows| && rows[i].id == id ==>
      && r[i].id == id && r[i].userId == rows[i].userId && r[i].createdAt == rows[i].createdAt
      && r[i].updatedAt == now
      && r[i].name == f.name && r[i].muscleGroup == f.muscleGroup && r[i].weightType == f.weightType
      && r[i].sets == f.sets && r[i].reps == f.reps && r[i].exerciseType == f.exerciseType
      && r[i].technique == Some(f.technique) && r[i].equipmentSetup == Some(f.equipmentSetup)
      && r[i].equipmentName == Some(f.equipmentName) && r[i].equipmentPhoto == Some(f.equipmentPhoto)
  {
    seq(|rows|, i requires 0 <= i < |rows| => if rows[i].id == id then ApplyForm(rows[i], f, now) else rows[i])
  }

  /** The page's editor: the stored exercises collection, the exercise
      being edited if any, the form, and whether the dialog is open. */
  class ExerciseEditor {
    var store: seq<Exercise>
    var editingExercise: Option<Exercise>
    var formData: FormData
    var isDialogOpen: bool

    constructor (store: seq<Exercise>)
      ensures this.store == store
      ensures editingExercise.None? && formData == DefaultForm && !isDialogOpen
    {
      this.store := store;
      editingExercise := None;
      formData := DefaultForm;
      isDialogOpen := false;
    }

    /** `resetForm`: nothing is being edited and the form is at its defaults. */
    method ResetForm()
      modifies this
      ensures editingExercise.None? && formData == DefaultForm
      ensures store == old(store) && isDialogOpen == old(isDialogOpen)
    {
      editingExercise := None;
      formData := DefaultForm;
    }

    /** `handleEdit`: the exercise becomes the editing target, its fields
      fill the form, and the dialog opens. */
    method HandleEdit(e: Exercise)
      modifies this
      ensures editingExercise == Some(e) && formData == FormOf(e) && isDialogOpen
      ensures store == old(store)
    {
      editingExercise := Some(e);
      formData := FormOf(e);
      isDialogOpen := true;
    }

    /** The sets input's change handler. */
    method ChangeSets(parsed: Option<int>)
      modifies this
      ensures formData == old(formData).(sets := SetsInput(parsed))
      ensures store == old(store) && editingExercise == old(editingExercise) && isDialogOpen == old(isDialogOpen)
    {
      formData := formData.(sets := SetsInput(parsed));
    }

    /** The reps input's change handler. */
    method ChangeReps(parsed: Option<int>)
      modifies this
      ensures formData == old(formData).(reps := RepsInput(parsed))
      ensures store == old(store) && editingExercise == old(editingExercise) && isDialogOpen == old(isDialogOpen)
    {
      formData := formData.(reps := RepsInput(parsed));
    }

    /** `handleSubmit`: while editing, the edited id is updated from the
      form; otherwise a new record owned by the current user is appended.
      Then the form is reset and the dialog closes. `stamp` stands for the
      clock reading the new id is made from, `now` for the timestamp. */
    method HandleSubmit(userId: string, stamp: string, now: string)
      modifies this
      ensures old(editingExercise).Some? ==>
        store == UpdateById(old(store), old(editingExercise).value.id, old(formData), now)
      ensures old(editingExercise).None? ==>
        store == old(store) + [NewExercise("exercise_" + stamp, userId, old(formData), now)]
      ensures editingExercise.None? && formData == DefaultForm && !isDialogOpen
    {
      if editingExercise.Some? {
        store := UpdateById(store, editingExercise.value.id, formData, now);
      } else {
        store := store + [NewExercise("exercise_" + stamp, userId, formData, now)];
      }
      ResetForm();
      isDialogOpen := false;
    }
  }
}
