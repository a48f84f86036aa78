/** The history page's derived views: statistics of one completed workout,
    the weight trend of one exercise over its latest progress records, and
    the totals across all completed workouts. All are pure computations
    over records already loaded from the store. */
module History {
  import opened Common
  import opened Types

  /** A workout exercise of a completed workout with its sets, ordered by
      set number; `row.exercise` holds the joined catalog entry. */
  datatype ExerciseDetails = ExerciseDetails(row: WorkoutExercise, sets: seq<ExerciseSet>)

  /** A completed workout with its exercises, ordered by `orderIndex`. */
  datatype WorkoutDetails = WorkoutDetails(workout: Workout, exercises: seq<ExerciseDetails>)

  datatype WorkoutStats = WorkoutStats(
    totalSets: int,
    completedSets: int,
    totalWeight: int,
    achievedExercises: int,
    completionRate: int)

  datatype Direction = Up | Down | Stable

  /** A weight trend: its direction, the size of the change, and the
      points it was computed from, oldest first. */
  datatype Trend = Trend(direction: Direction, change: real, data: seq<ExerciseProgress>)

  datatype TotalStats = TotalStats(
    totalWorkouts: int,
    totalSets: int,
    totalWeight: int,
    avgCompletion: int)

  /** An exercise counts as achieved when `weightAchieved` is positive. */
  predicate IsAchieved(ex: ExerciseDetails) {
    ex.row.weightAchieved > 0
  }

  /** Number of sets of all exercises. */
  function TotalSets(exs: seq<ExerciseDetails>): nat {
    if exs == [] then 0 else |exs[0].sets| + TotalSets(exs[1..])
  }

  /** Number of done sets of all exercises. */
  function CompletedSets(exs: seq<ExerciseDetails>): nat {
    if exs == [] then 0 else |Filter(exs[0].sets, IsDone)| + CompletedSets(exs[1..])
  }

  /** Weight times repetitions, summed over the sets of one exercise. */
  function SetsTonnage(sets: seq<ExerciseSet>): real {
    if sets == [] then 0.0 else sets[0].weight * sets[0].reps as real + SetsTonnage(sets[1..])
  }

  /** Weight times repetitions, summed over every set of every exercise. */
  function Tonnage(exs: seq<ExerciseDetails>): real {
    if exs == [] then 0.0 else SetsTonnage(exs[0].sets) + Tonnage(exs[1..])
  }

  /** There are never more done sets than sets. */
  lemma {:induction false} CompletedSetsBounded(exs: seq<ExerciseDetails>)
    ensures CompletedSets(exs) <= TotalSets(exs)
  {
    if exs != [] {
      CompletedSetsBounded(exs[1..]);
    }
  }

  /** When every set of every exercise is done, the two counts agree. */
  lemma {:induction false} CompletedSetsAllDone(exs: seq<ExerciseDetails>)
    requires forall i, j :: 0 <= i < |exs| && 0 <= j < |exs[i].sets| ==> IsDone(exs[i].sets[j])
    ensures CompletedSets(exs) == TotalSets(exs)
  {
    if exs != [] {
      FilterKeepsAll(exs[0].sets, IsDone);
      CompletedSetsAllDone(exs[1..]);
    }
  }

  /** `completionRate`: 0 with no sets, else the rounded percentage of done
      sets. */
  function CompletionRate(completed: nat, total: nat): (r: int)
    requires completed <= total
    ensures 0 <= r <= 100
    ensures total == 0 || completed == 0 ==> r == 0
    ensures 0 < total == completed ==> r == 100
    ensures total > 0 ==>
      var pct := (100 * completed) as real / total as real;
      pct - 0.5 < r as real <= pct + 0.5
  {
    if total > 0 then
      var pct := (completed as real / total as real) * 100.0;
      assert 0.0 <= pct <= 100.0 by { PercentBounds(completed, total); }
      assert completed == total ==> pct == 100.0;
      assert pct == (100 * completed) as real / total as real by {
        var q := completed as real / total as real;
        assert q * total as real == completed as real;
      }
      RoundWithin(pct, 0, 100);
      Round(pct)
    else 0
  }

  lemma PercentBounds(completed: nat, total: nat)
    requires 0 < total && completed <= total
    ensures 0.0 <= (completed as real / total as real) * 100.0 <= 100.0
  {
    var q := completed as real / total as real;
    assert q * total as real == completed as real;
    assert q <= 1.0;
  }

  /** `getWorkoutStats`. */
  function GetWorkoutStats(w: WorkoutDetails): (r: WorkoutStats)
    ensures r.totalSets == TotalSets(w.exercises)
    ensures r.completedSets == CompletedSets(w.exercises)
    ensures 0 <= r.completedSets <= r.totalSets
    ensures r.totalWeight == Round(Tonnage(w.exercises))
    ensures r.achievedExercises == |Filter(w.exercises, IsAchieved)| <= |w.exercises|
    ensures r.completionRate == CompletionRate(r.completedSets, r.totalSets)
    ensures 0 <= r.completionRate <= 100
    ensures r.totalSets == 0 ==> r.completionRate == 0
  {
    var total := TotalSets(w.exercises);
    var completed := CompletedSets(w.exercises);
    CompletedSetsBounded(w.exercises);
    WorkoutStats(
      total,
      completed,
      Round(Tonnage(w.exercises)),
      |Filter(w.exercises, IsAchieved)|,
      CompletionRate(completed, total))
  }

  /** The progress records of one exercise. */
  function ForExercise(exerciseId: string): ExerciseProgress -> bool {
    (p: ExerciseProgress) => p.exerciseId == exerciseId
  }

  /** The points a trend is drawn from: of the exercise's records (given
      most recent first), the latest five, in chronological order. */
  function TrendPoints(progress: seq<ExerciseProgress>, exerciseId: string): seq<ExerciseProgress> {
    var matching := Filter(progress, ForExercise(exerciseId));
    Reverse(matching[..Min(5, |matching|)])
  }

  /** `getExerciseProgressTrend`: no trend below two points; otherwise the
      direction from the oldest to the newest kept point and the size of
      the change. */
  function GetExerciseProgressTrend(progress: seq<ExerciseProgress>, exerciseId: string): (r: Option<Trend>)
    ensures r.None? <==> |Filter(progress, ForExercise(exerciseId))| < 2
    ensures r.Some? ==>
      var d := r.value.data;
      && d == TrendPoints(progress, exerciseId)
      && 2 <= |d| <= 5
      && (r.value.direction == Up <==> d[|d| - 1].weight > d[0].weight)
      && (r.value.direction == Down <==> d[|d| - 1].weight < d[0].weight)
      && (r.value.direction == Stable <==> d[|d| - 1].weight == d[0].weight)
      && r.value.change >= 0.0
      && (r.value.change == d[|d| - 1].weight - d[0].weight || r.value.change == d[0].weight - d[|d| - 1].weight)
  {
    var data := TrendPoints(progress, exerciseId);
    if |data| < 2 then None
    else
      var first := data[0].weight;
      var last := data[|data| - 1].weight;
      var direction := if last > first then Up else if last < first then Down else Stable;
      var change := if last - first >= 0.0 then last - first else first - last;
      Some(Trend(direction, change, data))
  }

  /** The trend's points are the exercise's latest records, at most five,
      oldest first: point `k` is the `(n-1-k)`-th most recent record. */
  lemma TrendPointsAreLatest(progress: seq<ExerciseProgress>, exerciseId: string)
    ensures var matching := Filter(progress, ForExercise(exerciseId));
            var d := TrendPoints(progress, exerciseId);
            && |d| == Min(5, |matching|)
            && (forall k :: 0 <= k < |d| ==> d[k] == matching[|d| - 1 - k])
            && (forall k :: 0 <= k < |d| ==> d[k].exerciseId == exerciseId)
  {
    var matching := Filter(progress, ForExercise(exerciseId));
    var kept := matching[..Min(5, |matching|)];
    ReverseIndex(kept);
    forall k | 0 <= k < |kept| ensures matching[k].exerciseId == exerciseId {
      assert ForExercise(exerciseId)(matching[k]);
    }
  }

  /** With the store in the order records were written and the query
      newest first, a record just written is the last point of its
      exercise's trend. */
  lemma NewestEndsTrend(progress: seq<ExerciseProgress>, rec: ExerciseProgress)
    ensures var d := TrendPoints(Reverse(progress + [rec]), rec.exerciseId);
            |d| >= 1 && d[|d| - 1] == rec
  {
    var listed := Reverse(progress + [rec]);
    ReverseAppend(progress, rec);
    assert Filter(listed, ForExercise(rec.exerciseId))[0] == rec;
    TrendPointsAreLatest(listed, rec.exerciseId);
  }

  /** `getTotalStats`: totals over the completed workouts and the mean of
      their completion rates. */
  function GetTotalStats(ws: seq<WorkoutDetails>): (r: TotalStats)
    ensures r.totalWorkouts == |ws|
    ensures r.totalSets == SumSets(ws) && r.totalWeight == SumWeights(ws)
    ensures r.totalSets >= 0
    ensures 0 <= r.avgCompletion <= 100
    ensures |ws| > 0 ==>
      var mean := SumRates(ws) as real / |ws| as real;
      mean - 0.5 < r.avgCompletion as real <= mean + 0.5
    ensures |ws| == 0 ==> r.avgCompletion == 0 && r.totalSets == 0 && r.totalWeight == 0
  {
    var n := |ws|;
    RatesBounded(ws);
    var avg :=
      if n > 0 then
        var mean := SumRates(ws) as real / n as real;
        assert 0.0 <= mean <= 100.0 by { MeanBounds(SumRates(ws), n); }
        RoundWithin(mean, 0, 100);
        Round(mean)
      else 0;
    TotalStats(n, SumSets(ws), SumWeights(ws), avg)
  }

  function SumSets(ws: seq<WorkoutDetails>): nat {
    if ws == [] then 0 else GetWorkoutStats(ws[0]).totalSets + SumSets(ws[1..])
  }

  function SumWeights(ws: seq<WorkoutDetails>): int {
    if ws == [] then 0 else GetWorkoutStats(ws[0]).totalWeight + SumWeights(ws[1..])
  }

  function SumRates(ws: seq<WorkoutDetails>): int {
    if ws == [] then 0 else GetWorkoutStats(ws[0]).completionRate + SumRates(ws[1..])
  }

  /** The completion rates of `n` workouts sum to between 0 and `100 n`. */
  lemma {:induction false} RatesBounded(ws: seq<WorkoutDetails>)
    ensures 0 <= SumRates(ws) <= 100 * |ws|
  {
    if ws != [] {
      RatesBounded(ws[1..]);
    }
  }

  lemma MeanBounds(sum: int, n: nat)
    requires 0 < n && 0 <= sum <= 100 * n
    ensures 0.0 <= sum as real / n as real <= 100.0
  {
    var q := sum as real / n as real;
    assert q * n as real == sum as real;
  }
}
