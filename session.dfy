/** The active-workout page: the session the user works through one
    exercise at a time. The page holds the open workouts, the active
    workout, its exercises joined with their catalog entries, a cursor,
    the sets of the exercise at the cursor, a stopwatch and the candidates
    for a substitution; the store holds the collections the page reads and
    writes. Sets are created lazily the first time an exercise is shown,
    and completing the workout appends one progress record per exercise. */
module ActiveWorkout {
  import opened Common
  import opened Types

  // ---------------------------------------------------------------------
  // Display helpers
  // ---------------------------------------------------------------------

  /** `formatTime`: whole minutes and the remaining seconds, each written
      with at least two digits, separated by a colon. */
  function FormatTime(seconds: nat): (r: string)
    ensures |r| >= 5 && r[|r| - 3] == ':'
    ensures seconds < 6000 ==> |r| == 5
  {
    var mins := TwoDigits(seconds / 60);
    var secs := TwoDigits(seconds % 60);
    ColonSplit(mins, secs);
    mins + ":" + secs
  }

  /** `n.toString().padStart(2, '0')`. */
  function TwoDigits(n: nat): (r: string)
    ensures |r| >= 2 && (n < 100 ==> |r| == 2)
  {
    PadStart(NatToString(n), 2, '0')
  }

  /** `r` is `m:ss`: the digits before the colon denote `mins`, the two
      digits after it `secs`. */
  predicate ReadsAs(r: string, mins: nat, secs: nat) {
    && |r| >= 3
    && AllDigits(r[..|r| - 3]) && AllDigits(r[|r| - 2..])
    && DigitsValue(r[..|r| - 3]) == mins && DigitsValue(r[|r| - 2..]) == secs
  }

  /** The stopwatch text reads back as the elapsed time: whole minutes
      before the colon and the remaining seconds, below 60, after it. */
  lemma FormatTimeRoundTrip(seconds: nat)
    ensures ReadsAs(FormatTime(seconds), seconds / 60, seconds % 60)
    ensures 60 * (seconds / 60) + seconds % 60 == seconds && seconds % 60 < 60
  {
    var mins := TwoDigits(seconds / 60);
    var secs := TwoDigits(seconds % 60);
    PaddedNumber(seconds / 60);
    PaddedNumber(seconds % 60);
    assert FormatTime(seconds) == mins + ":" + secs;
    ColonDigits(mins, secs);
  }

  /** The digit strings on both sides of the colon keep their values. */
  lemma ColonDigits(a: string, b: string)
    requires AllDigits(a) && AllDigits(b) && |b| == 2
    ensures ReadsAs(a + ":" + b, DigitsValue(a), DigitsValue(b))
  {
    ColonSplit(a, b);
  }

  /** The two halves around the colon of `a:bb`. */
  lemma ColonSplit(a: string, b: string)
    requires |b| == 2
    ensures var r := a + ":" + b; |r| == |a| + 3 && r[|r| - 3] == ':' && r[..|r| - 3] == a && r[|r| - 2..] == b
  {
  }

  /** A number written with at least two digits reads back as itself. */
  lemma PaddedNumber(n: nat)
    ensures AllDigits(TwoDigits(n)) && DigitsValue(TwoDigits(n)) == n
  {
    PadZerosValue(NatToString(n), 2);
    NatToStringRoundTrip(n);
  }

  /** The progress bar: the share of exercises up to and including the one
      at the cursor, in percent; an empty workout gives no number. */
  function ProgressPercent(index: nat, count: nat): (r: Option<real>)
    ensures r.None? <==> count == 0
    ensures r.Some? && index < count ==>
      0.0 < r.value <= 100.0 && (r.value == 100.0 <==> index == count - 1)
    ensures r.Some? ==> r.value * count as real == (index + 1) as real * 100.0
  {
    if count == 0 then None
    else
      var q := (index + 1) as real / count as real;
      assert q * count as real == (index + 1) as real;
      assert index < count ==> q <= 1.0;
      assert index < count - 1 ==> q < 1.0;
      Some(q * 100.0)
  }

  /** The weight input: `parseFloat(text) || 0`, where `None` stands for a
      text that does not parse. */
  function WeightInput(parsed: Option<real>): (r: real)
    ensures parsed.None? ==> r == 0.0
    ensures parsed.Some? ==> r == parsed.value
  {
    match parsed
    case None => 0.0
    case Some(w) => w
  }

  // ---------------------------------------------------------------------
  // Loading workouts
  // ---------------------------------------------------------------------

  /** The decoded `muscleGroups` of a stored workout: a serialized text is
      parsed (`parse` stands for `JSON.parse`, `None` for a parse error);
      a native list is used as it is; a missing field, or a text that does
      not parse, falls back to the one-element list of the legacy
      `muscleGroup`, read as empty when missing. */
  function DecodeMuscleGroups(stored: StoredGroups, legacy: Option<string>,
                              parse: string -> Option<seq<string>>): (r: seq<string>)
    ensures stored.Listed? ==> r == stored.groups
    ensures stored.Serialized? && parse(stored.text).Some? ==> r == parse(stored.text).value
    ensures stored.Absent? || (stored.Serialized? && parse(stored.text).None?) ==> r == [OrEmpty(legacy)]
    ensures r == [] ==> stored == Listed([]) || (stored.Serialized? && parse(stored.text) == Some([]))
  {
    match stored
    case Listed(groups) => groups
    case Serialized(text) =>
      (match parse(text)
       case Some(groups) => groups
       case None => [OrEmpty(legacy)])
    case Absent => [OrEmpty(legacy)]
  }

  /** A stored workout with its `muscleGroups` decoded. */
  function DecodeWorkout(w: StoredWorkout, parse: string -> Option<seq<string>>): Workout {
    Workout(w.id, w.userId, w.name, DecodeMuscleGroups(w.muscleGroups, w.muscleGroup, parse),
            w.muscleGroup, w.status, w.createdAt, w.completedAt)
  }

  /** The page's query: the user's workouts that are planned or active. */
  function OpenFor(userId: string): StoredWorkout -> bool {
    (w: StoredWorkout) => w.userId == userId && (w.status == Planned || w.status == Active)
  }

  /** Decoding with a fixed `parse`. */
  function Decoder(parse: string -> Option<seq<string>>): StoredWorkout -> Workout {
    (w: StoredWorkout) => DecodeWorkout(w, parse)
  }

  /** The workouts `loadWorkouts` lists, decoded, in the stored order: one
      entry per open stored workout, in the order they are stored. */
  function OpenWorkouts(stored: seq<StoredWorkout>, userId: string,
                        parse: string -> Option<seq<string>>): (r: seq<Workout>)
    ensures |r| == |Filter(stored, OpenFor(userId))|
    ensures IsSubsequence(r, Map(stored, Decoder(parse)))
    ensures forall i :: 0 <= i < |r| ==>
      r[i].userId == userId && (r[i].status == Planned || r[i].status == Active)
    ensures forall i :: 0 <= i < |stored| && OpenFor(userId)(stored[i]) ==>
      DecodeWorkout(stored[i], parse) in r
  {
    var r := Map(Filter(stored, OpenFor(userId)), Decoder(parse));
    OpenWorkoutsOrder(stored, userId, parse);
    OpenWorkoutsMembers(stored, userId, parse);
    r
  }

  /** The open workouts keep their stored order. */
  lemma OpenWorkoutsOrder(stored: seq<StoredWorkout>, userId: string, parse: string -> Option<seq<string>>)
    ensures IsSubsequence(Map(Filter(stored, OpenFor(userId)), Decoder(parse)), Map(stored, Decoder(parse)))
  {
    FilterIsSubsequence(stored, OpenFor(userId));
    MapSubsequence(Filter(stored, OpenFor(userId)), stored, Decoder(parse));
  }

  /** The open workouts are the user's planned or active ones, every one of
      them. */
  lemma OpenWorkoutsMembers(stored: seq<StoredWorkout>, userId: string, parse: string -> Option<seq<string>>)
    ensures var r := Map(Filter(stored, OpenFor(userId)), Decoder(parse));
      && (forall i :: 0 <= i < |r| ==>
            r[i].userId == userId && (r[i].status == Planned || r[i].status == Active))
      && (forall i :: 0 <= i < |stored| && OpenFor(userId)(stored[i]) ==>
            DecodeWorkout(stored[i], parse) in r)
  {
    var kept := Filter(stored, OpenFor(userId));
    var r := Map(kept, Decoder(parse));
    assert forall i :: 0 <= i < |kept| ==> OpenFor(userId)(kept[i]);
    forall i | 0 <= i < |stored| && OpenFor(userId)(stored[i])
      ensures DecodeWorkout(stored[i], parse) in r
    {
      var k :| 0 <= k < |kept| && kept[k] == stored[i];
      assert r[k] == DecodeWorkout(stored[i], parse);
    }
  }

  /** The first active workout's position. */
  function FirstActive(ws: seq<Workout>): (r: Option<nat>)
    ensures r.Some? ==>
      r.value < |ws| && ws[r.value].status == Active && (forall j :: 0 <= j < r.value ==> ws[j].status != Active)
    ensures r.None? ==> forall j :: 0 <= j < |ws| ==> ws[j].status != Active
  {
    if ws == [] then None
    else if ws[0].status == Active then Some(0)
    else
      match FirstActive(ws[1..])
      case None =>
        assert forall j :: 1 <= j < |ws| ==> ws[j] == ws[1..][j - 1];
        None
      case Some(k) =>
        assert forall j :: 1 <= j < k + 1 ==> ws[j] == ws[1..][j - 1];
        Some(k + 1)
  }

  /** The workout the page opens: the first active one, else the first in
      the list, and none when the list is empty. */
  function SelectWorkout(ws: seq<Workout>): (r: Option<nat>)
    ensures r.None? <==> |ws| == 0
    ensures r.Some? ==> r.value < |ws|
    ensures (exists i :: 0 <= i < |ws| && ws[i].status == Active) ==>
      r.Some? && ws[r.value].status == Active &&
      forall j :: 0 <= j < r.value ==> ws[j].status != Active
    ensures (forall i :: 0 <= i < |ws| ==> ws[i].status != Active) && |ws| > 0 ==> r == Some(0)
  {
    match FirstActive(ws)
    case Some(i) => Some(i)
    case None => if |ws| > 0 then Some(0) else None
  }

  /** `workouts.update(id, { status })` on every record with that id. */
  function WithStatus(ws: seq<StoredWorkout>, id: string, status: WorkoutStatus): (r: seq<StoredWorkout>)
    ensures |r| == |ws|
    ensures forall i :: 0 <= i < |ws| ==>
      r[i] == if ws[i].id == id then ws[i].(status := status) else ws[i]
  {
    seq(|ws|, i requires 0 <= i < |ws| => if ws[i].id == id then ws[i].(status := status) else ws[i])
  }

  /** The completion write: status completed and the completion time. */
  function WithCompletion(ws: seq<StoredWorkout>, id: string, now: string): (r: seq<StoredWorkout>)
    ensures |r| == |ws|
    ensures forall i :: 0 <= i < |ws| ==>
      r[i] == if ws[i].id == id then ws[i].(status := Completed, completedAt := Some(now)) else ws[i]
  {
    seq(|ws|, i requires 0 <= i < |ws| =>
      if ws[i].id == id then ws[i].(status := Completed, completedAt := Some(now)) else ws[i])
  }

  /** A completed workout is no longer among the open ones. */
  lemma CompletedWorkoutNotReopened(ws: seq<StoredWorkout>, id: string, now: string, userId: string,
                                    parse: string -> Option<seq<string>>)
    ensures forall i :: 0 <= i < |OpenWorkouts(WithCompletion(ws, id, now), userId, parse)| ==>
      OpenWorkouts(WithCompletion(ws, id, now), userId, parse)[i].id != id
  {
    var done := WithCompletion(ws, id, now);
    var kept := Filter(done, OpenFor(userId));
    forall i | 0 <= i < |kept| ensures kept[i].id != id {
      assert OpenFor(userId)(kept[i]);
    }
  }

  // ---------------------------------------------------------------------
  // The exercise roster
  // ---------------------------------------------------------------------

  /** `exercises.list({ where: { id }, limit: 1 })[0]`: the first catalog
      entry with that id. */
  function FindExercise(catalog: seq<Exercise>, id: string): (r: Option<Exercise>)
    ensures r.Some? ==> r.value in catalog && r.value.id == id
    ensures r.None? <==> forall i :: 0 <= i < |catalog| ==> catalog[i].id != id
  {
    if catalog == [] then None
    else if catalog[0].id == id then Some(catalog[0])
    else FindExercise(catalog[1..], id)
  }

  function InWorkout(workoutId: string): WorkoutExercise -> bool {
    (we: WorkoutExercise) => we.workoutId == workoutId
  }

  /** The workout's exercises in stored order, each joined with its
      catalog entry: apart from the join, one entry per stored row of the
      workout, in stored order. */
  function Roster(rows: seq<WorkoutExercise>, catalog: seq<Exercise>, workoutId: string): (r: seq<WorkoutExercise>)
    ensures |r| == |Filter(rows, InWorkout(workoutId))|
    ensures IsSubsequence(UnjoinedRows(r), UnjoinedRows(rows))
    ensures forall i :: 0 <= i < |r| ==>
      && r[i].workoutId == workoutId
      && r[i].exercise == FindExercise(catalog, r[i].exerciseId)
      && Unjoined(r[i]) in UnjoinedRows(rows)
    ensures forall k :: 0 <= k < |rows| && rows[k].workoutId == workoutId ==>
      Unjoined(rows[k]) in UnjoinedRows(r)
  {
    var r := Map(Filter(rows, InWorkout(workoutId)), Joiner(catalog));
    RosterOrder(rows, catalog, workoutId);
    RosterMembers(rows, catalog, workoutId);
    r
  }

  /** A row joined with the catalog entry of its exercise id. */
  function Joiner(catalog: seq<Exercise>): WorkoutExercise -> WorkoutExercise {
    (we: WorkoutExercise) => we.(exercise := FindExercise(catalog, we.exerciseId))
  }

  /** Apart from the join, the roster is a subsequence of the stored rows. */
  lemma RosterOrder(rows: seq<WorkoutExercise>, catalog: seq<Exercise>, workoutId: string)
    ensures IsSubsequence(UnjoinedRows(Map(Filter(rows, InWorkout(workoutId)), Joiner(catalog))), UnjoinedRows(rows))
  {
    var mine := Filter(rows, InWorkout(workoutId));
    FilterIsSubsequence(rows, InWorkout(workoutId));
    MapSubsequence(mine, rows, Unjoined);
    assert UnjoinedRows(Map(mine, Joiner(catalog))) == UnjoinedRows(mine);
  }

  /** The roster holds the workout's rows and only those. */
  lemma RosterMembers(rows: seq<WorkoutExercise>, catalog: seq<Exercise>, workoutId: string)
    ensures var r := Map(Filter(rows, InWorkout(workoutId)), Joiner(catalog));
      && (forall i :: 0 <= i < |r| ==>
            && r[i].workoutId == workoutId
            && r[i].exercise == FindExercise(catalog, r[i].exerciseId)
            && Unjoined(r[i]) in UnjoinedRows(rows))
      && (forall k :: 0 <= k < |rows| && rows[k].workoutId == workoutId ==>
            Unjoined(rows[k]) in UnjoinedRows(r))
  {
    RosterRowsStored(rows, catalog, workoutId);
    RosterRowsAll(rows, catalog, workoutId);
  }

  /** Every roster row is one of the workout's stored rows. */
  lemma RosterRowsStored(rows: seq<WorkoutExercise>, catalog: seq<Exercise>, workoutId: string)
    ensures var r := Map(Filter(rows, InWorkout(workoutId)), Joiner(catalog));
      forall i :: 0 <= i < |r| ==>
        && r[i].workoutId == workoutId
        && r[i].exercise == FindExercise(catalog, r[i].exerciseId)
        && Unjoined(r[i]) in UnjoinedRows(rows)
  {
    var mine := Filter(rows, InWorkout(workoutId));
    var r := Map(mine, Joiner(catalog));
    forall i | 0 <= i < |r|
      ensures r[i].workoutId == workoutId && Unjoined(r[i]) in UnjoinedRows(rows)
    {
      assert InWorkout(workoutId)(mine[i]);
      var k :| 0 <= k < |rows| && rows[k] == mine[i];
      assert UnjoinedRows(rows)[k] == Unjoined(r[i]);
    }
  }

  /** Every stored row of the workout is in the roster. */
  lemma RosterRowsAll(rows: seq<WorkoutExercise>, catalog: seq<Exercise>, workoutId: string)
    ensures var r := Map(Filter(rows, InWorkout(workoutId)), Joiner(catalog));
      forall k :: 0 <= k < |rows| && rows[k].workoutId == workoutId ==>
        Unjoined(rows[k]) in UnjoinedRows(r)
  {
    var mine := Filter(rows, InWorkout(workoutId));
    var r := Map(mine, Joiner(catalog));
    forall k | 0 <= k < |rows| && rows[k].workoutId == workoutId
      ensures Unjoined(rows[k]) in UnjoinedRows(r)
    {
      assert InWorkout(workoutId)(rows[k]);
      var i :| 0 <= i < |mine| && mine[i] == rows[k];
      assert UnjoinedRows(r)[i] == Unjoined(rows[k]);
    }
  }

  /** A row without its joined catalog entry. */
  function Unjoined(row: WorkoutExercise): WorkoutExercise {
    row.(exercise := None)
  }

  function UnjoinedRows(rows: seq<WorkoutExercise>): (r: seq<WorkoutExercise>)
    ensures |r| == |rows| && forall i :: 0 <= i < |rows| ==> r[i] == Unjoined(rows[i])
  {
    Map(rows, Unjoined)
  }

  /** `workoutExercises.update(id, { exerciseId })`. */
  function WithExerciseId(rows: seq<WorkoutExercise>, id: string, exerciseId: string): (r: seq<WorkoutExercise>)
    ensures |r| == |rows|
    ensures forall i :: 0 <= i < |rows| ==>
      r[i] == if rows[i].id == id then rows[i].(exerciseId := exerciseId) else rows[i]
  {
    seq(|rows|, i requires 0 <= i < |rows| => if rows[i].id == id then rows[i].(exerciseId := exerciseId) else rows[i])
  }

  /** After a substitution, the substituted row of the reloaded roster
      refers to the new exercise and carries its catalog entry. */
  lemma SubstitutionJoinsNewExercise(rows: seq<WorkoutExercise>, catalog: seq<Exercise>, workoutId: string,
                                     rowId: string, newExerciseId: string)
    ensures var r := Roster(WithExerciseId(rows, rowId, newExerciseId), catalog, workoutId);
      forall i :: 0 <= i < |r| && r[i].id == rowId ==>
        r[i].exerciseId == newExerciseId && r[i].exercise == FindExercise(catalog, newExerciseId)
  {
    var updated := WithExerciseId(rows, rowId, newExerciseId);
    var r := Roster(updated, catalog, workoutId);
    forall i | 0 <= i < |r| && r[i].id == rowId
      ensures r[i].exerciseId == newExerciseId
    {
      var k :| 0 <= k < |updated| && UnjoinedRows(updated)[k] == Unjoined(r[i]);
      assert updated[k].id == rowId;
    }
  }

  /** The exercises offered as substitutes: the user's exercises with the
      current exercise's muscle group and type, minus every exercise the
      workout already uses. */
  function SameSlot(userId: string, current: Exercise): Exercise -> bool {
    (e: Exercise) => e.userId == userId && e.muscleGroup == current.muscleGroup &&
                     e.exerciseType == current.exerciseType
  }

  predicate UsedIn(roster: seq<WorkoutExercise>, exerciseId: string) {
    exists j :: 0 <= j < |roster| && roster[j].exerciseId == exerciseId
  }

  function Unused(roster: seq<WorkoutExercise>): Exercise -> bool {
    (e: Exercise) => !UsedIn(roster, e.id)
  }

  function Candidates(catalog: seq<Exercise>, userId: string, current: Exercise,
                      roster: seq<WorkoutExercise>): (r: seq<Exercise>)
    ensures forall i :: 0 <= i < |r| ==>
      && r[i] in catalog
      && r[i].userId == userId
      && r[i].muscleGroup == current.muscleGroup
      && r[i].exerciseType == current.exerciseType
      && forall j :: 0 <= j < |roster| ==> roster[j].exerciseId != r[i].id
    ensures forall i :: 0 <= i < |catalog| ==>
      (catalog[i].userId == userId && catalog[i].muscleGroup == current.muscleGroup &&
       catalog[i].exerciseType == current.exerciseType && !UsedIn(roster, catalog[i].id))
      ==> catalog[i] in r
    ensures IsSubsequence(r, catalog)
    ensures |r| == |Filter(catalog, Both(SameSlot(userId, current), Unused(roster)))|
  {
    var r := Filter(Filter(catalog, SameSlot(userId, current)), Unused(roster));
    CandidatesOrder(catalog, userId, current, roster);
    CandidatesMembers(catalog, userId, current, roster);
    r
  }

  /** The candidates keep catalog order and are the entries passing both
      tests in one pass. */
  lemma CandidatesOrder(catalog: seq<Exercise>, userId: string, current: Exercise, roster: seq<WorkoutExercise>)
    ensures var r := Filter(Filter(catalog, SameSlot(userId, current)), Unused(roster));
      IsSubsequence(r, catalog) && r == Filter(catalog, Both(SameSlot(userId, current), Unused(roster)))
  {
    FilterFilter(catalog, SameSlot(userId, current), Unused(roster));
    FilterIsSubsequence(catalog, Both(SameSlot(userId, current), Unused(roster)));
  }

  /** The candidates are the user's unused entries of the current slot,
      every one of them. */
  lemma CandidatesMembers(catalog: seq<Exercise>, userId: string, current: Exercise, roster: seq<WorkoutExercise>)
    ensures var r := Filter(Filter(catalog, SameSlot(userId, current)), Unused(roster));
      && (forall i :: 0 <= i < |r| ==>
            && r[i] in catalog
            && r[i].userId == userId
            && r[i].muscleGroup == current.muscleGroup
            && r[i].exerciseType == current.exerciseType
            && forall j :: 0 <= j < |roster| ==> roster[j].exerciseId != r[i].id)
      && (forall i :: 0 <= i < |catalog| ==>
            (catalog[i].userId == userId && catalog[i].muscleGroup == current.muscleGroup &&
             catalog[i].exerciseType == current.exerciseType && !UsedIn(roster, catalog[i].id))
            ==> catalog[i] in r)
  {
    var slot := Filter(catalog, SameSlot(userId, current));
    var r := Filter(slot, Unused(roster));
    assert forall i :: 0 <= i < |r| ==> SameSlot(userId, current)(r[i]) && Unused(roster)(r[i]);
    forall i | 0 <= i < |catalog| && SameSlot(userId, current)(catalog[i]) && Unused(roster)(catalog[i])
      ensures catalog[i] in r
    {
      var k :| 0 <= k < |slot| && slot[k] == catalog[i];
    }
  }

  // ---------------------------------------------------------------------
  // Sets
  // ---------------------------------------------------------------------

  predicate UniqueIds(sets: seq<ExerciseSet>) {
    forall i, j :: 0 <= i < j < |sets| ==> sets[i].id != sets[j].id
  }

  function OfWorkoutExercise(workoutExerciseId: string): ExerciseSet -> bool {
    (s: ExerciseSet) => s.workoutExerciseId == workoutExerciseId
  }

  /** `exerciseSets.list({ where: { workoutExerciseId } })`, in stored order. */
  function SetsOf(store: seq<ExerciseSet>, workoutExerciseId: string): (r: seq<ExerciseSet>)
    ensures forall i :: 0 <= i < |r| ==> r[i] in store && r[i].workoutExerciseId == workoutExerciseId
    ensures forall i :: 0 <= i < |store| && store[i].workoutExerciseId == workoutExerciseId ==> store[i] in r
    ensures |r| == |Filter(store, OfWorkoutExercise(workoutExerciseId))|
    ensures IsSubsequence(r, store)
  {
    var r := Filter(store, OfWorkoutExercise(workoutExerciseId));
    FilterIsSubsequence(store, OfWorkoutExercise(workoutExerciseId));
    assert forall i :: 0 <= i < |r| ==> OfWorkoutExercise(workoutExerciseId)(r[i]);
    r
  }

  /** Set `n` of an exercise as `createSetsForExercise` writes it. */
  function NewSet(workoutExerciseId: string, ex: Exercise, weight: real, n: nat, stamp: string, now: string): ExerciseSet {
    ExerciseSet("set_" + stamp + "_" + NatToString(n), workoutExerciseId, n, ex.reps, weight, 0, now)
  }

  /** Number of sets an exercise's target asks for (none when not positive). */
  function TargetSets(ex: Exercise): nat {
    if ex.sets > 0 then ex.sets else 0
  }

  /** The sets `createSetsForExercise` creates: numbered 1 to the target,
      each with the target repetitions and the workout exercise's current
      weight, none done; nothing when the catalog entry is missing.
      `stamp` is the clock reading the ids are made from. */
  function MaterializedSets(workoutExerciseId: string, we: WorkoutExercise, stamp: string, now: string): seq<ExerciseSet> {
    match we.exercise
    case None => []
    case Some(ex) =>
      seq(TargetSets(ex), k requires 0 <= k < TargetSets(ex) =>
        NewSet(workoutExerciseId, ex, we.currentWeight, k + 1, stamp, now))
  }

  /** The created sets are numbered 1, 2, ... up to the target, carry the
      exercise's targets, are not done, and have pairwise distinct ids. */
  lemma MaterializedSetsShape(workoutExerciseId: string, we: WorkoutExercise, stamp: string, now: string)
    requires we.exercise.Some?
    ensures var r := MaterializedSets(workoutExerciseId, we, stamp, now);
      && |r| == TargetSets(we.exercise.value)
      && UniqueIds(r)
      && forall k :: 0 <= k < |r| ==>
           && r[k].workoutExerciseId == workoutExerciseId
           && r[k].setNumber == k + 1
           && r[k].reps == we.exercise.value.reps
           && r[k].weight == we.currentWeight
           && r[k].completed == 0 && !IsDone(r[k])
  {
    var r := MaterializedSets(workoutExerciseId, we, stamp, now);
    var prefix := "set_" + stamp + "_";
    forall i, j | 0 <= i < j < |r| ensures r[i].id != r[j].id {
      var a := NatToString(i + 1);
      var b := NatToString(j + 1);
      assert r[i].id == prefix + a && r[j].id == prefix + b;
      if r[i].id == r[j].id {
        assert (prefix + a)[|prefix|..] == a;
        assert (prefix + b)[|prefix|..] == b;
        NatToStringRoundTrip(i + 1);
        NatToStringRoundTrip(j + 1);
      }
    }
  }

  /** The store after `loadExerciseSets` has shown `target`: when no set of
      it is stored yet, its sets are materialized and appended. */
  function AfterVisit(store: seq<ExerciseSet>, target: WorkoutExercise, stamp: string, now: string): (r: seq<ExerciseSet>)
    ensures SetsOf(store, target.id) != [] ==> r == store
    ensures SetsOf(store, target.id) == [] && target.exercise.Some? ==>
      SetsOf(r, target.id) == MaterializedSets(target.id, target, stamp, now) &&
      |SetsOf(r, target.id)| == TargetSets(target.exercise.value)
  {
    var created := MaterializedSets(target.id, target, stamp, now);
    if SetsOf(store, target.id) == [] then
      FilterAppend(store, created, OfWorkoutExercise(target.id));
      FilterKeepsAll(created, OfWorkoutExercise(target.id));
      store + created
    else store
  }

  /** The sets the page shows after that visit. */
  function ShownAfterVisit(store: seq<ExerciseSet>, target: WorkoutExercise, stamp: string, now: string): seq<ExerciseSet> {
    if SetsOf(store, target.id) == [] then MaterializedSets(target.id, target, stamp, now)
    else SetsOf(store, target.id)
  }

  /** Showing an exercise again creates nothing and shows the same sets,
      whatever the clock then reads. */
  lemma {:induction false} VisitTwice(store: seq<ExerciseSet>, target: WorkoutExercise,
                                      stamp: string, now: string, stamp2: string, now2: string)
    ensures AfterVisit(AfterVisit(store, target, stamp, now), target, stamp2, now2) == AfterVisit(store, target, stamp, now)
    ensures ShownAfterVisit(AfterVisit(store, target, stamp, now), target, stamp2, now2) ==
            ShownAfterVisit(store, target, stamp, now)
  {
    if SetsOf(store, target.id) == [] {
      var created := MaterializedSets(target.id, target, stamp, now);
      FilterAppend(store, created, OfWorkoutExercise(target.id));
      FilterKeepsAll(created, OfWorkoutExercise(target.id));
      assert SetsOf(store + created, target.id) == created;
      if created == [] {
        assert |MaterializedSets(target.id, target, stamp2, now2)| == 0;
        assert store + created == store;
      }
    }
  }

  /** The sets one visit creates: those of `target` itself. */
  function CreatedOnVisit(store: seq<ExerciseSet>, target: WorkoutExercise, stamp: string, now: string): (r: seq<ExerciseSet>)
    ensures AfterVisit(store, target, stamp, now) == store + r
    ensures target.exercise.Some? && SetsOf(store, target.id) == [] ==>
      |r| == TargetSets(target.exercise.value) &&
      forall k :: 0 <= k < |r| ==> r[k].reps == target.exercise.value.reps && r[k].setNumber == k + 1
  {
    if SetsOf(store, target.id) == [] then MaterializedSets(target.id, target, stamp, now)
    else (assert store + [] == store; [])
  }

  /** The sets `loadExerciseSets` creates as written: it is handed the id of
      the exercise to show, but takes the targets from the exercise at the
      cursor of the render the handler was created in (`roster`, `index`),
      which is the previous exercise when moving on and nothing on the
      first load. */
  function CreatedOnVisitAsWritten(store: seq<ExerciseSet>, workoutExerciseId: string,
                                   roster: seq<WorkoutExercise>, index: nat,
                                   stamp: string, now: string): (r: seq<ExerciseSet>)
    ensures SetsOf(store, workoutExerciseId) != [] || index >= |roster| ==> r == []
    ensures SetsOf(store, workoutExerciseId) == [] && index < |roster| ==>
      r == MaterializedSets(workoutExerciseId, roster[index], stamp, now)
  {
    if SetsOf(store, workoutExerciseId) == [] && index < |roster| then
      MaterializedSets(workoutExerciseId, roster[index], stamp, now)
    else []
  }

  /** Two exercises with three and four target sets. On the first load the
      handler sees an empty roster and creates no set for the first one;
      moving on to the second one, it creates three sets of the first
      one's definition instead of four. */
  lemma StaleCursorCounterexample()
    ensures var bench := Exercise("e1", "u", "Жим", "Грудь", Weighted, None, 3, 10, None, Main, None, None, "", "");
            var flyes := Exercise("e2", "u", "Разводка", "Грудь", Weighted, None, 4, 12, None, Isolation, None, None, "", "");
            var first := WorkoutExercise("we1", "w", "e1", 0, 40.0, 0, "", Some(bench));
            var second := WorkoutExercise("we2", "w", "e2", 1, 10.0, 0, "", Some(flyes));
            && CreatedOnVisitAsWritten([], "we1", [], 0, "1", "t") == []
            && |CreatedOnVisit([], first, "1", "t")| == 3
            && |CreatedOnVisitAsWritten([], "we2", [first, second], 0, "2", "t")| == 3
            && CreatedOnVisitAsWritten([], "we2", [first, second], 0, "2", "t")[0].reps == 10
            && |CreatedOnVisit([], second, "2", "t")| == 4
            && CreatedOnVisit([], second, "2", "t")[0].reps == 12
  {
  }

  /** `prev.map(s => s.id === setId ? { ...s, completed } : s)`. */
  function WithCompleted(sets: seq<ExerciseSet>, id: string, completed: int): (r: seq<ExerciseSet>)
    ensures |r| == |sets|
    ensures forall i :: 0 <= i < |sets| ==>
      r[i] == if sets[i].id == id then sets[i].(completed := completed) else sets[i]
  {
    seq(|sets|, i requires 0 <= i < |sets| => if sets[i].id == id then sets[i].(completed := completed) else sets[i])
  }

  /** `prev.map(s => s.id === setId ? { ...s, weight } : s)`. */
  function WithWeight(sets: seq<ExerciseSet>, id: string, weight: real): (r: seq<ExerciseSet>)
    ensures |r| == |sets|
    ensures forall i :: 0 <= i < |sets| ==>
      r[i] == if sets[i].id == id then sets[i].(weight := weight) else sets[i]
  {
    seq(|sets|, i requires 0 <= i < |sets| => if sets[i].id == id then sets[i].(weight := weight) else sets[i])
  }

  /** `exerciseSets.find(s => s.id === setId)`. */
  function FindSet(sets: seq<ExerciseSet>, id: string): (r: Option<ExerciseSet>)
    ensures r.Some? ==> r.value in sets && r.value.id == id
    ensures r.None? <==> forall i :: 0 <= i < |sets| ==> sets[i].id != id
  {
    if sets == [] then None
    else if sets[0].id == id then Some(sets[0])
    else FindSet(sets[1..], id)
  }

  /** With distinct ids, the set found is the one with that id. */
  lemma {:induction false} FindSetUnique(sets: seq<ExerciseSet>, id: string, i: nat)
    requires UniqueIds(sets) && i < |sets| && sets[i].id == id
    ensures FindSet(sets, id) == Some(sets[i])
  {
    if i > 0 {
      assert sets[0].id != id;
      assert sets[1..][i - 1] == sets[i];
      FindSetUnique(sets[1..], id, i - 1);
    }
  }

  /** The toggle's new value: a done set becomes not done, any other done. */
  function Flip(completed: int): int {
    if completed > 0 then 0 else 1
  }

  /** The page's list after `toggleSetCompletion(id)`: the set with that id
      flips between done and not done; nothing else changes, and nothing
      at all when no set has that id. */
  function ToggleSets(sets: seq<ExerciseSet>, id: string): (r: seq<ExerciseSet>)
    ensures |r| == |sets|
    ensures forall i :: 0 <= i < |sets| ==> r[i] == sets[i].(completed := r[i].completed)
    ensures forall i :: 0 <= i < |sets| && sets[i].id != id ==> r[i] == sets[i]
    ensures UniqueIds(sets) ==>
      forall i :: 0 <= i < |sets| && sets[i].id == id ==>
        r[i].completed == Flip(sets[i].completed) && (IsDone(r[i]) <==> !IsDone(sets[i]))
  {
    match FindSet(sets, id)
    case None => sets
    case Some(s) =>
      var r := WithCompleted(sets, id, Flip(s.completed));
      assert UniqueIds(sets) ==>
        forall i :: 0 <= i < |sets| && sets[i].id == id ==>
          r[i].completed == Flip(sets[i].completed) && (IsDone(r[i]) <==> !IsDone(sets[i])) by {
        if UniqueIds(sets) {
          forall i | 0 <= i < |sets| && sets[i].id == id
            ensures r[i].completed == Flip(sets[i].completed) && (IsDone(r[i]) <==> !IsDone(sets[i]))
          {
            FindSetUnique(sets, id, i);
          }
        }
      }
      r
  }

  /** Toggling a set twice restores the list, when ids are distinct and
      `completed` holds 0 or 1. */
  lemma ToggleTwice(sets: seq<ExerciseSet>, id: string)
    requires UniqueIds(sets)
    requires forall i :: 0 <= i < |sets| ==> sets[i].completed == 0 || sets[i].completed == 1
    ensures ToggleSets(ToggleSets(sets, id), id) == sets
  {
    var once := ToggleSets(sets, id);
    var twice := ToggleSets(once, id);
    if i :| 0 <= i < |sets| && sets[i].id == id {
      FindSetUnique(sets, id, i);
      assert UniqueIds(once);
      FindSetUnique(once, id, i);
      forall j | 0 <= j < |sets| ensures twice[j] == sets[j] {
        if sets[j].id == id {
          assert j == i;
        }
      }
    }
  }

  /** Editing a weight never changes which sets are done. */
  lemma {:induction false} WeightEditKeepsDone(sets: seq<ExerciseSet>, id: string, weight: real)
    ensures |Filter(WithWeight(sets, id, weight), IsDone)| == |Filter(sets, IsDone)|
  {
    if sets != [] {
      assert WithWeight(sets, id, weight)[1..] == WithWeight(sets[1..], id, weight);
      WeightEditKeepsDone(sets[1..], id, weight);
    }
  }

  /** Deleting each set of `doomed`, one `delete(set.id)` at a time. */
  function DeleteAll(store: seq<ExerciseSet>, doomed: seq<ExerciseSet>): seq<ExerciseSet>
    decreases |doomed|
  {
    if doomed == [] then store
    else DeleteAll(Filter(store, OtherThan(doomed[0].id)), doomed[1..])
  }

  function OtherThan(id: string): ExerciseSet -> bool {
    (s: ExerciseSet) => s.id != id
  }

  predicate HasSetId(sets: seq<ExerciseSet>, id: string) {
    exists j :: 0 <= j < |sets| && sets[j].id == id
  }

  /** After the deletions no stored set has the id of a deleted one, and
      every other stored set is still there. */
  lemma {:induction false} DeleteAllRemoves(store: seq<ExerciseSet>, doomed: seq<ExerciseSet>)
    ensures var r := DeleteAll(store, doomed);
      && (forall i :: 0 <= i < |r| ==> r[i] in store && !HasSetId(doomed, r[i].id))
      && (forall i :: 0 <= i < |store| && !HasSetId(doomed, store[i].id) ==> store[i] in r)
    decreases |doomed|
  {
    if doomed != [] {
      var rest := Filter(store, OtherThan(doomed[0].id));
      DeleteAllRemoves(rest, doomed[1..]);
      var r := DeleteAll(store, doomed);
      assert r == DeleteAll(rest, doomed[1..]);
      forall i | 0 <= i < |r| ensures r[i] in store && !HasSetId(doomed, r[i].id) {
        assert r[i] in rest;
        var k :| 0 <= k < |rest| && rest[k] == r[i];
        assert OtherThan(doomed[0].id)(rest[k]);
      }
      forall i | 0 <= i < |store| && !HasSetId(doomed, store[i].id) ensures store[i] in r {
        assert store[i].id != doomed[0].id;
        assert store[i] in rest;
      }
    }
  }

  // ---------------------------------------------------------------------
  // Completing a workout
  // ---------------------------------------------------------------------

  /** `sets.reduce((sum, s) => sum + s.weight, 0)`. */
  function TotalWeight(sets: seq<ExerciseSet>): real {
    if sets == [] then 0.0 else sets[0].weight + TotalWeight(sets[1..])
  }

  /** `allSetsCompleted ? 1 : 0`: 1 exactly when every set is done, so also
      for an exercise without sets. */
  function AchievedFlag(sets: seq<ExerciseSet>): (r: int)
    ensures r == 0 || r == 1
    ensures r == 1 <==> forall i :: 0 <= i < |sets| ==> IsDone(sets[i])
  {
    FilterLengthFull(sets, IsDone);
    if |Filter(sets, IsDone)| == |sets| then 1 else 0
  }

  /** The weight recorded: the mean of the sets' weights, or the workout
      exercise's current weight when it has no sets. */
  function AverageWeight(sets: seq<ExerciseSet>, fallback: real): (r: real)
    ensures sets == [] ==> r == fallback
    ensures sets != [] ==> r * |sets| as real == TotalWeight(sets)
  {
    if |sets| > 0 then TotalWeight(sets) / |sets| as real else fallback
  }

  lemma {:induction false} TotalWeightBounds(sets: seq<ExerciseSet>, lo: real, hi: real)
    requires forall i :: 0 <= i < |sets| ==> lo <= sets[i].weight <= hi
    ensures |sets| as real * lo <= TotalWeight(sets) <= |sets| as real * hi
  {
    if sets != [] {
      assert forall i :: 0 <= i < |sets[1..]| ==> sets[1..][i] == sets[i + 1];
      TotalWeightBounds(sets[1..], lo, hi);
      assert |sets| as real * lo == lo + |sets[1..]| as real * lo;
      assert |sets| as real * hi == hi + |sets[1..]| as real * hi;
    }
  }

  /** The recorded weight lies between the lightest and the heaviest set;
      when every set has the same weight, that is the weight recorded. */
  lemma AverageWithin(sets: seq<ExerciseSet>, fallback: real, lo: real, hi: real)
    requires sets != []
    requires forall i :: 0 <= i < |sets| ==> lo <= sets[i].weight <= hi
    ensures lo <= AverageWeight(sets, fallback) <= hi
  {
    TotalWeightBounds(sets, lo, hi);
    var n := |sets| as real;
    var a := AverageWeight(sets, fallback);
    assert a * n == TotalWeight(sets);
    assert (a - lo) * n >= 0.0;
    assert (hi - a) * n >= 0.0;
  }

  /** The progress record `completeWorkout` appends for one exercise. */
  function ProgressRecord(we: WorkoutExercise, sets: seq<ExerciseSet>, userId: string,
                          stamp: string, now: string): ExerciseProgress {
    ExerciseProgress("progress_" + stamp + "_" + we.exerciseId, userId, we.exerciseId,
                     AverageWeight(sets, we.currentWeight), AchievedFlag(sets), now, now)
  }

  /** An exercise without any set is recorded as achieved, at its current
      weight. */
  lemma NoSetsCountsAsAchieved(we: WorkoutExercise, userId: string, stamp: string, now: string)
    ensures ProgressRecord(we, [], userId, stamp, now).achieved == 1
    ensures ProgressRecord(we, [], userId, stamp, now).weight == we.currentWeight
  {
  }

  /** The progress records for the exercises of `roster`, in order. */
  function ProgressRecords(roster: seq<WorkoutExercise>, store: seq<ExerciseSet>, userId: string,
                           stamp: string, now: string): (r: seq<ExerciseProgress>)
    ensures |r| == |roster|
    ensures forall j :: 0 <= j < |roster| ==>
      r[j].exerciseId == roster[j].exerciseId && r[j].userId == userId &&
      r[j].achieved == AchievedFlag(SetsOf(store, roster[j].id)) &&
      r[j].weight == AverageWeight(SetsOf(store, roster[j].id), roster[j].currentWeight)
  {
    seq(|roster|, j requires 0 <= j < |roster| => ProgressRecord(roster[j], SetsOf(store, roster[j].id), userId, stamp, now))
  }

  /** `workoutExercises.update(id, { weightAchieved })`. */
  function WithAchieved(rows: seq<WorkoutExercise>, id: string, flag: int): (r: seq<WorkoutExercise>)
    ensures |r| == |rows|
    ensures forall i :: 0 <= i < |rows| ==>
      r[i] == if rows[i].id == id then rows[i].(weightAchieved := flag) else rows[i]
  {
    seq(|rows|, i requires 0 <= i < |rows| => if rows[i].id == id then rows[i].(weightAchieved := flag) else rows[i])
  }

  /** The stored rows after the `weightAchieved` writes for the exercises
      of `roster`, one after the other. */
  function MarkAchieved(rows: seq<WorkoutExercise>, roster: seq<WorkoutExercise>, store: seq<ExerciseSet>): seq<WorkoutExercise>
    decreases |roster|
  {
    if roster == [] then rows
    else
      var last := roster[|roster| - 1];
      WithAchieved(MarkAchieved(rows, roster[..|roster| - 1], store), last.id, AchievedFlag(SetsOf(store, last.id)))
  }

  predicate HasRow(roster: seq<WorkoutExercise>, id: string) {
    exists j :: 0 <= j < |roster| && roster[j].id == id
  }

  /** After the writes, each stored row of a completed exercise says
      whether all its sets were done; every other row is untouched. */
  lemma {:induction false} MarkAchievedAgrees(rows: seq<WorkoutExercise>, roster: seq<WorkoutExercise>, store: seq<ExerciseSet>)
    ensures var r := MarkAchieved(rows, roster, store);
      && |r| == |rows|
      && forall i :: 0 <= i < |rows| ==>
           r[i] == if HasRow(roster, rows[i].id)
                   then rows[i].(weightAchieved := AchievedFlag(SetsOf(store, rows[i].id)))
                   else rows[i]
    decreases |roster|
  {
    if roster != [] {
      var init := roster[..|roster| - 1];
      var last := roster[|roster| - 1];
      MarkAchievedAgrees(rows, init, store);
      forall i | 0 <= i < |rows|
        ensures HasRow(roster, rows[i].id) <==> HasRow(init, rows[i].id) || last.id == rows[i].id
      {
        if HasRow(roster, rows[i].id) {
          var j :| 0 <= j < |roster| && roster[j].id == rows[i].id;
          if j < |roster| - 1 {
            assert init[j] == roster[j];
          }
        }
        if HasRow(init, rows[i].id) {
          var j :| 0 <= j < |init| && init[j].id == rows[i].id;
          assert roster[j] == init[j];
        }
      }
    }
  }

  /** Each exercise's stored `weightAchieved` and its new progress record
      agree: row `i` of the store is the row of roster entry `j`. */
  lemma CompletionConsistent(rows: seq<WorkoutExercise>, roster: seq<WorkoutExercise>, store: seq<ExerciseSet>,
                             userId: string, stamp: string, now: string, i: nat, j: nat)
    requires i < |rows| && j < |roster| && rows[i].id == roster[j].id
    ensures i < |MarkAchieved(rows, roster, store)|
    ensures MarkAchieved(rows, roster, store)[i].weightAchieved ==
            ProgressRecords(roster, store, userId, stamp, now)[j].achieved
  {
    MarkAchievedAgrees(rows, roster, store);
    assert HasRow(roster, rows[i].id);
  }

  /** One more exercise appends one more record. */
  lemma ProgressRecordsSnoc(roster: seq<WorkoutExercise>, i: nat, store: seq<ExerciseSet>,
                            userId: string, stamp: string, now: string)
    requires i < |roster|
    ensures ProgressRecords(roster[..i + 1], store, userId, stamp, now) ==
            ProgressRecords(roster[..i], store, userId, stamp, now) +
            [ProgressRecord(roster[i], SetsOf(store, roster[i].id), userId, stamp, now)]
  {
  }

  /** One more exercise is one more `weightAchieved` write. */
  lemma MarkAchievedSnoc(rows: seq<WorkoutExercise>, roster: seq<WorkoutExercise>, i: nat, store: seq<ExerciseSet>)
    requires i < |roster|
    ensures MarkAchieved(rows, roster[..i + 1], store) ==
            WithAchieved(MarkAchieved(rows, roster[..i], store), roster[i].id, AchievedFlag(SetsOf(store, roster[i].id)))
  {
    assert roster[..i + 1][..i] == roster[..i];
  }

  /** The store once the workout is marked completed and the first `k`
      exercises of `roster` are recorded. */
  function Recorded(base: Store, workoutId: string, roster: seq<WorkoutExercise>, k: nat,
                    userId: string, stamp: string, now: string): Store
    requires k <= |roster|
  {
    base.(workouts := WithCompletion(base.workouts, workoutId, now),
          workoutExercises := MarkAchieved(base.workoutExercises, roster[..k], base.sets),
          progress := base.progress + ProgressRecords(roster[..k], base.sets, userId, stamp, now))
  }

  /** Before any exercise is recorded, only the completion is written. */
  lemma RecordedNone(base: Store, workoutId: string, roster: seq<WorkoutExercise>,
                     userId: string, stamp: string, now: string)
    ensures Recorded(base, workoutId, roster, 0, userId, stamp, now) ==
            base.(workouts := WithCompletion(base.workouts, workoutId, now))
  {
    assert roster[..0] == [];
  }

  /** Recording exercise `i` after the first `i`. */
  lemma RecordedStep(base: Store, workoutId: string, roster: seq<WorkoutExercise>, i: nat,
                     userId: string, stamp: string, now: string)
    requires i < |roster|
    ensures var before := Recorded(base, workoutId, roster, i, userId, stamp, now);
            var sets := SetsOf(base.sets, roster[i].id);
      Recorded(base, workoutId, roster, i + 1, userId, stamp, now) == before.(
        progress := before.progress + [ProgressRecord(roster[i], sets, userId, stamp, now)],
        workoutExercises := WithAchieved(before.workoutExercises, roster[i].id, AchievedFlag(sets)))
  {
    ProgressRecordsSnoc(roster, i, base.sets, userId, stamp, now);
    MarkAchievedSnoc(base.workoutExercises, roster, i, base.sets);
  }

  /** The page after a completed workout: nothing active, an empty roster
      and set list, the cursor at 0, the stopwatch at zero and stopped. */
  function Cleared(v: PageView): PageView {
    v.(activeWorkout := None, workoutExercises := [], exerciseSets := [],
       currentExerciseIndex := 0, timer := 0, isTimerRunning := false)
  }

  /** How many exercises `completeWorkout` records before a failing store
      call at position `failsAt` ends the loop. */
  function Processed(count: nat, failsAt: Option<nat>): (k: nat)
    ensures k <= count
    ensures failsAt.None? ==> k == count
  {
    if failsAt.Some? && failsAt.value < count then failsAt.value else count
  }

  // ---------------------------------------------------------------------
  // The page
  // ---------------------------------------------------------------------

  /** The collections the page reads and writes. Stored workout exercises
      carry no joined catalog entry. */
  datatype Store = Store(
    workouts: seq<StoredWorkout>,
    workoutExercises: seq<WorkoutExercise>,
    exercises: seq<Exercise>,
    sets: seq<ExerciseSet>,
    progress: seq<ExerciseProgress>)

  /** The page's own state, as one value. */
  datatype PageView = PageView(
    workouts: seq<Workout>,
    activeWorkout: Option<Workout>,
    workoutExercises: seq<WorkoutExercise>,
    currentExerciseIndex: nat,
    exerciseSets: seq<ExerciseSet>,
    timer: nat,
    isTimerRunning: bool,
    availableExercises: seq<Exercise>)

  const InitialView := PageView([], None, [], 0, [], 0, false, [])

  class ActiveSession {
    var db: Store
    var workouts: seq<Workout>
    var activeWorkout: Option<Workout>
    var workoutExercises: seq<WorkoutExercise>
    var currentExerciseIndex: nat
    var exerciseSets: seq<ExerciseSet>
    var timer: nat
    var isTimerRunning: bool
    var availableExercises: seq<Exercise>

    function View(): PageView
      reads this
    {
      PageView(workouts, activeWorkout, workoutExercises, currentExerciseIndex,
               exerciseSets, timer, isTimerRunning, availableExercises)
    }

    /** The cursor points into the roster, or is 0 when it is empty. */
    predicate Valid()
      reads this
    {
      if workoutExercises == [] then currentExerciseIndex == 0
      else currentExerciseIndex < |workoutExercises|
    }

    constructor (store: Store)
      ensures db == store && View() == InitialView && Valid()
    {
      db := store;
      workouts := [];
      activeWorkout := None;
      workoutExercises := [];
      currentExerciseIndex := 0;
      exerciseSets := [];
      timer := 0;
      isTimerRunning := false;
      availableExercises := [];
    }

    /** `resetTimer`: back to zero and stopped. */
    method ResetTimer()
      modifies this
      ensures db == old(db) && View() == old(View()).(timer := 0, isTimerRunning := false)
    {
      timer := 0;
      isTimerRunning := false;
    }

    method StartTimer()
      modifies this
      ensures db == old(db) && View() == old(View()).(isTimerRunning := true)
    {
      isTimerRunning := true;
    }

    method PauseTimer()
      modifies this
      ensures db == old(db) && View() == old(View()).(isTimerRunning := false)
    {
      isTimerRunning := false;
    }

    /** One tick of the one-second interval: it counts only while running. */
    method Tick()
      modifies this
      ensures db == old(db)
      ensures View() == old(View()).(timer := if old(isTimerRunning) then old(timer) + 1 else old(timer))
    {
      if isTimerRunning {
        timer := timer + 1;
      }
    }

    /** `createSetsForExercise`: creates the sets one by one in the store
      and then shows them; a workout exercise without a catalog entry
      fails on its first read and changes nothing. */
    method CreateSetsForExercise(workoutExerciseId: string, workoutExercise: WorkoutExercise, stamp: string, now: string)
      modifies this
      ensures db == old(db).(sets := old(db.sets) + MaterializedSets(workoutExerciseId, workoutExercise, stamp, now))
      ensures workoutExercise.exercise.Some? ==>
        View() == old(View()).(exerciseSets := MaterializedSets(workoutExerciseId, workoutExercise, stamp, now))
      ensures workoutExercise.exercise.None? ==> View() == old(View())
    {
      if workoutExercise.exercise.None? {
        return;
      }
      var ex := workoutExercise.exercise.value;
      var all := MaterializedSets(workoutExerciseId, workoutExercise, stamp, now);
      var newSets: seq<ExerciseSet> := [];
      var i := 1;
      while i <= ex.sets
        invariant 1 <= i <= TargetSets(ex) + 1
        invariant newSets == all[..i - 1]
        invariant db == old(db).(sets := old(db.sets) + newSets)
        invariant View() == old(View())
        decreases ex.sets - i
      {
        var next := NewSet(workoutExerciseId, ex, workoutExercise.currentWeight, i, stamp, now);
        assert next == all[i - 1];
        db := db.(sets := db.sets + [next]);
        newSets := newSets + [next];
        assert newSets == all[..i];
        i := i + 1;
      }
      assert newSets == all;
      exerciseSets := newSets;
    }

    /** `loadExerciseSets`, shown here with the workout exercise to show
      (`target`): its stored sets are shown; when there are none, its sets
      are created from its own targets. */
    method LoadExerciseSets(target: WorkoutExercise, stamp: string, now: string)
      modifies this
      ensures db == old(db).(sets := AfterVisit(old(db.sets), target, stamp, now))
      ensures View() == old(View()).(exerciseSets := ShownAfterVisit(old(db.sets), target, stamp, now))
    {
      var sets := SetsOf(db.sets, target.id);
      exerciseSets := sets;
      if |sets| == 0 {
        CreateSetsForExercise(target.id, target, stamp, now);
      }
    }

    /** `startWorkout`: the workout becomes active (in the store too unless
      it already was), its roster is loaded with the cursor on the first
      exercise, and that exercise's sets are shown. */
    method StartWorkout(w: Workout, stamp: string, now: string)
      modifies this
      ensures Valid()
      ensures var roster := Roster(old(db.workoutExercises), old(db.exercises), w.id);
        && db == old(db).(
             workouts := if w.status != Active then WithStatus(old(db.workouts), w.id, Active) else old(db.workouts),
             sets := if roster != [] then AfterVisit(old(db.sets), roster[0], stamp, now) else old(db.sets))
        && View() == old(View()).(
             activeWorkout := Some(w),
             workoutExercises := roster,
             currentExerciseIndex := 0,
             exerciseSets := if roster != [] then ShownAfterVisit(old(db.sets), roster[0], stamp, now)
                             else old(exerciseSets))
    {
      activeWorkout := Some(w);
      if w.status != Active {
        db := db.(workouts := WithStatus(db.workouts, w.id, Active));
      }
      var roster := Roster(db.workoutExercises, db.exercises, w.id);
      workoutExercises := roster;
      currentExerciseIndex := 0;
      if |roster| > 0 {
        LoadExerciseSets(roster[0], stamp, now);
      }
    }

    /** `loadWorkouts`: lists the user's open workouts, decoded, and starts
      the one `SelectWorkout` picks, if any. */
    method LoadWorkouts(userId: string, parse: string -> Option<seq<string>>, stamp: string, now: string)
      requires Valid()
      modifies this
      ensures Valid()
      ensures workouts == OpenWorkouts(old(db.workouts), userId, parse)
      ensures SelectWorkout(workouts).None? ==>
        db == old(db) && View() == old(View()).(workouts := workouts)
      ensures SelectWorkout(workouts).Some? ==>
        var w := workouts[SelectWorkout(workouts).value];
        var roster := Roster(old(db.workoutExercises), old(db.exercises), w.id);
        && db == old(db).(
             workouts := if w.status != Active then WithStatus(old(db.workouts), w.id, Active) else old(db.workouts),
             sets := if roster != [] then AfterVisit(old(db.sets), roster[0], stamp, now) else old(db.sets))
        && View() == old(View()).(
             workouts := workouts,
             activeWorkout := Some(w),
             workoutExercises := roster,
             currentExerciseIndex := 0,
             exerciseSets := if roster != [] then ShownAfterVisit(old(db.sets), roster[0], stamp, now)
                             else old(exerciseSets))
    {
      var processed := OpenWorkouts(db.workouts, userId, parse);
      workouts := processed;
      var pick := SelectWorkout(processed);
      if pick.Some? {
        StartWorkout(processed[pick.value], stamp, now);
      }
    }

    /** `toggleSetCompletion`: the set is looked up among the shown sets;
      its flipped value is written to the store and to the shown list. */
    method ToggleSetCompletion(setId: string)
      modifies this
      ensures FindSet(old(exerciseSets), setId).None? ==> db == old(db) && View() == old(View())
      ensures FindSet(old(exerciseSets), setId).Some? ==>
        && db == old(db).(sets := WithCompleted(old(db.sets), setId, Flip(FindSet(old(exerciseSets), setId).value.completed)))
        && View() == old(View()).(exerciseSets := ToggleSets(old(exerciseSets), setId))
    {
      var found := FindSet(exerciseSets, setId);
      if found.None? {
        return;
      }
      var newCompleted := Flip(found.value.completed);
      db := db.(sets := WithCompleted(db.sets, setId, newCompleted));
      exerciseSets := WithCompleted(exerciseSets, setId, newCompleted);
    }

    /** `updateSetWeight`: the weight is written to the store and to the
      shown list. */
    method UpdateSetWeight(setId: string, weight: real)
      modifies this
      ensures db == old(db).(sets := WithWeight(old(db.sets), setId, weight))
      ensures View() == old(View()).(exerciseSets := WithWeight(old(exerciseSets), setId, weight))
    {
      db := db.(sets := WithWeight(db.sets, setId, weight));
      exerciseSets := WithWeight(exerciseSets, setId, weight);
    }

    /** `nextExercise`: unless at the last exercise, the cursor moves on,
      that exercise's sets are shown, and the stopwatch is reset. */
    method NextExercise(stamp: string, now: string)
      requires Valid()
      modifies this
      ensures Valid()
      ensures old(currentExerciseIndex) + 1 < |old(workoutExercises)| ==>
        var target := old(workoutExercises)[old(currentExerciseIndex) + 1];
        && db == old(db).(sets := AfterVisit(old(db.sets), target, stamp, now))
        && View() == old(View()).(
             currentExerciseIndex := old(currentExerciseIndex) + 1,
             exerciseSets := ShownAfterVisit(old(db.sets), target, stamp, now),
             timer := 0,
             isTimerRunning := false)
      ensures old(currentExerciseIndex) + 1 >= |old(workoutExercises)| ==>
        db == old(db) && View() == old(View())
    {
      if currentExerciseIndex + 1 < |workoutExercises| {
        var nextIndex := currentExerciseIndex + 1;
        currentExerciseIndex := nextIndex;
        LoadExerciseSets(workoutExercises[nextIndex], stamp, now);
        ResetTimer();
      }
    }

    /** `previousExercise`: unless at the first exercise, the cursor moves
      back, that exercise's sets are shown, and the stopwatch is reset. */
    method PreviousExercise(stamp: string, now: string)
      requires Valid()
      modifies this
      ensures Valid()
      ensures old(currentExerciseIndex) > 0 ==>
        var target := old(workoutExercises)[old(currentExerciseIndex) - 1];
        && db == old(db).(sets := AfterVisit(old(db.sets), target, stamp, now))
        && View() == old(View()).(
             currentExerciseIndex := old(currentExerciseIndex) - 1,
             exerciseSets := ShownAfterVisit(old(db.sets), target, stamp, now),
             timer := 0,
             isTimerRunning := false)
      ensures old(currentExerciseIndex) == 0 ==> db == old(db) && View() == old(View())
    {
      if currentExerciseIndex > 0 {
        var prevIndex := currentExerciseIndex - 1;
        currentExerciseIndex := prevIndex;
        LoadExerciseSets(workoutExercises[prevIndex], stamp, now);
        ResetTimer();
      }
    }

    /** `loadAvailableExercises`: the substitutes for the exercise at the
      cursor; nothing happens without an active workout, a current
      exercise, or its catalog entry (whose read fails). */
    method LoadAvailableExercises(userId: string)
      modifies this
      ensures db == old(db)
      ensures old(activeWorkout).Some? && old(currentExerciseIndex) < |old(workoutExercises)| &&
              old(workoutExercises)[old(currentExerciseIndex)].exercise.Some? ==>
        View() == old(View()).(availableExercises :=
          Candidates(old(db.exercises), userId,
                     old(workoutExercises)[old(currentExerciseIndex)].exercise.value, old(workoutExercises)))
      ensures old(activeWorkout).None? || old(currentExerciseIndex) >= |old(workoutExercises)| ||
              old(workoutExercises)[old(currentExerciseIndex)].exercise.None? ==>
        View() == old(View())
    {
      if activeWorkout.None? || currentExerciseIndex >= |workoutExercises| {
        return;
      }
      var current := workoutExercises[currentExerciseIndex];
      if current.exercise.None? {
        return;
      }
      availableExercises := Candidates(db.exercises, userId, current.exercise.value, workoutExercises);
    }

    /** `replaceExercise`: the row at the cursor is pointed at the new
      exercise, every shown set is deleted one by one, and the workout is
      started again, which puts the cursor back on the first exercise. */
    method ReplaceExercise(newExerciseId: string, stamp: string, now: string)
      requires Valid()
      modifies this
      ensures Valid()
      ensures old(activeWorkout).None? || old(currentExerciseIndex) >= |old(workoutExercises)| ==>
        db == old(db) && View() == old(View())
      ensures old(activeWorkout).Some? && old(currentExerciseIndex) < |old(workoutExercises)| ==>
        var w := old(activeWorkout).value;
        var rows := WithExerciseId(old(db.workoutExercises), old(workoutExercises)[old(currentExerciseIndex)].id, newExerciseId);
        var pruned := DeleteAll(old(db.sets), old(exerciseSets));
        var roster := Roster(rows, old(db.exercises), w.id);
        && db == old(db).(
             workouts := if w.status != Active then WithStatus(old(db.workouts), w.id, Active) else old(db.workouts),
             workoutExercises := rows,
             sets := if roster != [] then AfterVisit(pruned, roster[0], stamp, now) else pruned)
        && View() == old(View()).(
             workoutExercises := roster,
             currentExerciseIndex := 0,
             exerciseSets := if roster != [] then ShownAfterVisit(pruned, roster[0], stamp, now)
                             else old(exerciseSets))
    {
      if activeWorkout.None? || currentExerciseIndex >= |workoutExercises| {
        return;
      }
      var current := workoutExercises[currentExerciseIndex];
      db := db.(workoutExercises := WithExerciseId(db.workoutExercises, current.id, newExerciseId));
      DeleteSets(exerciseSets);
      StartWorkout(activeWorkout.value, stamp, now);
    }

    /** `replaceExercise`'s deletion loop: the sets of `doomed` are deleted
      from the store one id at a time. */
    method DeleteSets(doomed: seq<ExerciseSet>)
      modifies this
      ensures db == old(db).(sets := DeleteAll(old(db.sets), doomed))
      ensures View() == old(View())
    {
      var i := 0;
      while i < |doomed|
        invariant 0 <= i <= |doomed|
        invariant DeleteAll(db.sets, doomed[i..]) == DeleteAll(old(db.sets), doomed)
        invariant db == old(db).(sets := db.sets)
        invariant View() == old(View())
      {
        assert doomed[i..][1..] == doomed[i + 1..];
        db := db.(sets := Filter(db.sets, OtherThan(doomed[i].id)));
        i := i + 1;
      }
      assert doomed[i..] == [];
    }

    /** The body of `completeWorkout`'s loop for one exercise: its stored
      sets decide the progress record appended and the `weightAchieved`
      written. */
    method RecordExercise(we: WorkoutExercise, userId: string, stamp: string, now: string)
      modifies this
      ensures db == old(db).(
        progress := old(db.progress) + [ProgressRecord(we, SetsOf(old(db.sets), we.id), userId, stamp, now)],
        workoutExercises := WithAchieved(old(db.workoutExercises), we.id, AchievedFlag(SetsOf(old(db.sets), we.id))))
      ensures View() == old(View())
    {
      var sets := SetsOf(db.sets, we.id);
      var allSetsCompleted := AchievedFlag(sets);
      db := db.(progress := db.progress + [ProgressRecord(we, sets, userId, stamp, now)]);
      db := db.(workoutExercises := WithAchieved(db.workoutExercises, we.id, allSetsCompleted));
    }

    /** `completeWorkout`: the workout is marked completed first; then, for
      each exercise of the roster in order, a progress record is appended
      and the row's `weightAchieved` is written; a store call failing at
      exercise `failsAt` ends the loop there and leaves the page as it was;
      otherwise the page is reset. The list and reload that follow are the
      separate `LoadWorkouts`. */
    method CompleteWorkout(userId: string, stamp: string, now: string, failsAt: Option<nat>)
      requires Valid()
      modifies this
      ensures Valid()
      ensures old(activeWorkout).None? ==> db == old(db) && View() == old(View())
      ensures old(activeWorkout).Some? ==>
        var k := Processed(|old(workoutExercises)|, failsAt);
        && db == Recorded(old(db), old(activeWorkout).value.id, old(workoutExercises), k, userId, stamp, now)
        && (k == |old(workoutExercises)| ==> View() == Cleared(old(View())))
        && (k < |old(workoutExercises)| ==> View() == old(View()))
    {
      if activeWorkout.None? {
        return;
      }
      var roster := workoutExercises;
      var k := Processed(|roster|, failsAt);
      RecordCompletion(activeWorkout.value.id, roster, k, userId, stamp, now);
      if k < |roster| {
        return;
      }
      ClearSession();
    }

    /** `completeWorkout`'s store writes: the completion, then the first
      `k` exercises of `roster`, one by one. */
    method RecordCompletion(workoutId: string, roster: seq<WorkoutExercise>, k: nat,
                            userId: string, stamp: string, now: string)
      requires k <= |roster|
      modifies this
      ensures db == Recorded(old(db), workoutId, roster, k, userId, stamp, now)
      ensures View() == old(View())
    {
      var base := db;
      db := db.(workouts := WithCompletion(db.workouts, workoutId, now));
      RecordedNone(base, workoutId, roster, userId, stamp, now);
      var i := 0;
      while i < k
        invariant i <= k
        invariant db == Recorded(base, workoutId, roster, i, userId, stamp, now)
        invariant View() == old(View())
      {
        RecordedStep(base, workoutId, roster, i, userId, stamp, now);
        RecordExercise(roster[i], userId, stamp, now);
        i := i + 1;
      }
    }

    /** The reset after a completed workout. */
    method ClearSession()
      modifies this
      ensures db == old(db) && View() == Cleared(old(View()))
    {
      activeWorkout := None;
      workoutExercises := [];
      exerciseSets := [];
      currentExerciseIndex := 0;
      ResetTimer();
    }
  }
}
