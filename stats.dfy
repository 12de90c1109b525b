/** The three statistics calculators of the report: workouts, nutrition and weight trend.
    Each consumes one record list and produces a fixed-shape summary. */
module Stats {
  import opened Wrappers
  import opened Dates
  import opened Folds
  import opened Rounding
  import opened Records

  // ---------------------------------------------------------------- workouts

  datatype IntensityBreakdown = IntensityBreakdown(low: nat, medium: nat, high: nat)

  datatype WorkoutStats = WorkoutStats(
    totalWorkouts: nat,
    totalMinutes: int,
    averageDuration: real,
    intensityBreakdown: IntensityBreakdown,
    workoutTypes: map<string, nat>)

  const NoWorkoutStats := WorkoutStats(0, 0, 0.0, IntensityBreakdown(0, 0, 0), map[])

  function Minutes(w: Workout): int { w.durationMinutes }

  function HasIntensity(level: string): Workout -> bool {
    (w: Workout) => w.intensity == level
  }

  function OfKind(kind: string): Workout -> bool {
    (w: Workout) => w.kind == kind
  }

  /** `Counter(w["type"] for w in workouts)`, folded one workout at a time. */
  function TypeCounts(workouts: seq<Workout>): map<string, nat> {
    if workouts == [] then map[]
    else
      var m := TypeCounts(workouts[1..]);
      var kind := workouts[0].kind;
      m[kind := (if kind in m then m[kind] else 0) + 1]
  }

  /** `_calculate_workout_stats`. */
  function CalculateWorkoutStats(workouts: seq<Workout>): (r: WorkoutStats)
    ensures workouts == [] ==> r == NoWorkoutStats
    ensures r.totalWorkouts == |workouts|
    ensures r.totalMinutes == SumInt(workouts, Minutes)
    ensures workouts != [] ==>
      -0.05 <= r.averageDuration - r.totalMinutes as real / r.totalWorkouts as real <= 0.05
    ensures r.intensityBreakdown.low == Count(workouts, HasIntensity("low"))
    ensures r.intensityBreakdown.medium == Count(workouts, HasIntensity("medium"))
    ensures r.intensityBreakdown.high == Count(workouts, HasIntensity("high"))
  {
    if workouts == [] then NoWorkoutStats
    else
      var total := SumInt(workouts, Minutes);
      WorkoutStats(
        |workouts|,
        total,
        Round1(total as real / |workouts| as real),
        IntensityBreakdown(
          Count(workouts, HasIntensity("low")),
          Count(workouts, HasIntensity("medium")),
          Count(workouts, HasIntensity("high"))),
        TypeCounts(workouts))
  }

  /** The type histogram has exactly the types present as keys, each with its number of workouts. */
  lemma {:induction false} TypeCountsSpec(workouts: seq<Workout>)
    ensures TypeCounts(workouts).Keys == set w | w in workouts :: w.kind
    ensures forall kind :: kind in TypeCounts(workouts) ==>
      TypeCounts(workouts)[kind] == Count(workouts, OfKind(kind))
  {
    if workouts != [] {
      var tail := workouts[1..];
      var m := TypeCounts(tail);
      TypeCountsSpec(tail);
      assert workouts == [workouts[0]] + tail;
      forall w | w in workouts ensures w.kind in TypeCounts(workouts) {
        if w != workouts[0] {
          assert w in tail;
        }
      }
      forall kind | kind in TypeCounts(workouts)
        ensures TypeCounts(workouts)[kind] == Count(workouts, OfKind(kind))
      {
        assert Count(workouts, OfKind(kind))
          == (if workouts[0].kind == kind then 1 else 0) + Count(tail, OfKind(kind));
        if kind !in m {
          forall i | 0 <= i < |tail| ensures !OfKind(kind)(tail[i]) {
            assert tail[i] in tail;
          }
          CountNone(tail, OfKind(kind));
        }
      }
    }
  }

  /** The type histogram's counts add up to the number of workouts. */
  lemma {:induction false} TypeCountsTotal(workouts: seq<Workout>)
    ensures MapSum(TypeCounts(workouts)) == |workouts|
  {
    if workouts != [] {
      var m := TypeCounts(workouts[1..]);
      var kind := workouts[0].kind;
      var v := (if kind in m then m[kind] else 0) + 1;
      var m' := m[kind := v];
      TypeCountsTotal(workouts[1..]);
      MapSumRemove(m', kind);
      assert m' - {kind} == m - {kind};
      if kind in m {
        MapSumRemove(m, kind);
      } else {
        assert m - {kind} == m;
      }
    }
  }

  /** For every workout list: the intensity counts add up to at most the total, and to
      exactly the total when every intensity is one of low, medium and high; the type
      histogram counts every workout once and names exactly the types present. */
  lemma WorkoutStatsCounts(workouts: seq<Workout>)
    ensures var r := CalculateWorkoutStats(workouts);
      && r.intensityBreakdown.low + r.intensityBreakdown.medium + r.intensityBreakdown.high <= r.totalWorkouts
      && ((forall w :: w in workouts ==> w.intensity in {"low", "medium", "high"})
          ==> r.intensityBreakdown.low + r.intensityBreakdown.medium + r.intensityBreakdown.high == r.totalWorkouts)
      && MapSum(r.workoutTypes) == r.totalWorkouts
      && r.workoutTypes.Keys == (set w | w in workouts :: w.kind)
      && (forall kind :: kind in r.workoutTypes ==> r.workoutTypes[kind] == Count(workouts, OfKind(kind)))
  {
    CountThree(workouts, HasIntensity("low"), HasIntensity("medium"), HasIntensity("high"));
    TypeCountsSpec(workouts);
    TypeCountsTotal(workouts);
  }

  /** The workout statistics do not depend on the order the store returns the workouts in. */
  lemma WorkoutStatsPermutation(a: seq<Workout>, b: seq<Workout>)
    requires multiset(a) == multiset(b)
    ensures CalculateWorkoutStats(a) == CalculateWorkoutStats(b)
  {
    assert |a| == |multiset(a)| == |b|;
    if a != [] {
      SumIntPermutation(a, b, Minutes);
      CountPermutation(a, b, HasIntensity("low"));
      CountPermutation(a, b, HasIntensity("medium"));
      CountPermutation(a, b, HasIntensity("high"));
      TypeCountsSpec(a);
      TypeCountsSpec(b);
      var ma, mb := TypeCounts(a), TypeCounts(b);
      assert (set w | w in a :: w.kind) == (set w | w in b :: w.kind) by {
        forall w ensures w in a <==> w in b {
          assert w in a <==> w in multiset(a);
          assert w in b <==> w in multiset(b);
        }
      }
      forall kind | kind in ma ensures ma[kind] == mb[kind] {
        CountPermutation(a, b, OfKind(kind));
      }
      assert ma == mb;
    }
  }

  // ---------------------------------------------------------------- nutrition

  datatype NutritionStats = NutritionStats(
    totalMeals: nat,
    totalCalories: int,
    averageDailyCalories: real,
    totalMacros: Macros,
    averageDailyMacros: Macros)

  const NoNutritionStats := NutritionStats(0, 0, 0.0, Macros(0.0, 0.0, 0.0), Macros(0.0, 0.0, 0.0))

  function Calories(m: Meal): int { m.calories }
  function Protein(m: Meal): real { m.macros.protein }
  function Carbs(m: Meal): real { m.macros.carbs }
  function Fat(m: Meal): real { m.macros.fat }

  /** `_calculate_nutrition_stats` over the inclusive window [start, end]. */
  function CalculateNutritionStats(meals: seq<Meal>, start: Date, end: Date): (r: NutritionStats)
    requires NotAfter(start, end)
    ensures meals == [] ==> r == NoNutritionStats
    ensures r.totalMeals == |meals|
    ensures r.totalCalories == SumInt(meals, Calories)
    ensures meals != [] ==>
      var days := DaysInWindow(start, end) as real;
      && -0.05 <= r.averageDailyCalories - r.totalCalories as real / days <= 0.05
      && -0.05 <= r.totalMacros.protein - SumReal(meals, Protein) <= 0.05
      && -0.05 <= r.totalMacros.carbs - SumReal(meals, Carbs) <= 0.05
      && -0.05 <= r.totalMacros.fat - SumReal(meals, Fat) <= 0.05
      && -0.05 <= r.averageDailyMacros.protein - SumReal(meals, Protein) / days <= 0.05
      && -0.05 <= r.averageDailyMacros.carbs - SumReal(meals, Carbs) / days <= 0.05
      && -0.05 <= r.averageDailyMacros.fat - SumReal(meals, Fat) / days <= 0.05
  {
    if meals == [] then NoNutritionStats
    else
      var calories := SumInt(meals, Calories);
      var protein, carbs, fat := SumReal(meals, Protein), SumReal(meals, Carbs), SumReal(meals, Fat);
      var days := DaysInWindow(start, end) as real;
      NutritionStats(
        |meals|,
        calories,
        Round1(calories as real / days),
        Macros(Round1(protein), Round1(carbs), Round1(fat)),
        Macros(Round1(protein / days), Round1(carbs / days), Round1(fat / days)))
  }

  /** Over a single-day window the daily average is the rounded total itself. */
  lemma SingleDayNutrition(meals: seq<Meal>, day: Date)
    requires meals != []
    ensures CalculateNutritionStats(meals, day, day).averageDailyCalories == Round1(SumInt(meals, Calories) as real)
    ensures CalculateNutritionStats(meals, day, day).averageDailyCalories == SumInt(meals, Calories) as real
  {
    RoundWhole(SumInt(meals, Calories));
  }

  /** The nutrition statistics do not depend on the order the store returns the meals in. */
  lemma NutritionStatsPermutation(a: seq<Meal>, b: seq<Meal>, start: Date, end: Date)
    requires NotAfter(start, end)
    requires multiset(a) == multiset(b)
    ensures CalculateNutritionStats(a, start, end) == CalculateNutritionStats(b, start, end)
  {
    assert |a| == |multiset(a)| == |b|;
    SumIntPermutation(a, b, Calories);
    SumRealPermutation(a, b, Protein);
    SumRealPermutation(a, b, Carbs);
    SumRealPermutation(a, b, Fat);
  }

  // ---------------------------------------------------------------- weight trend

  datatype Trend = Decreasing | Increasing | Stable | NoData

  datatype WeightTrend = WeightTrend(
    entries: nat,
    startWeight: Option<real>,
    endWeight: Option<real>,
    change: Option<real>,
    trend: Trend)

  const NoWeightTrend := WeightTrend(0, None, None, None, NoData)

  ghost predicate SortedByDate(s: seq<WeightLog>) {
    forall i, j :: 0 <= i < j < |s| ==> NotAfter(s[i].date, s[j].date)
  }

  /** Inserts `x` before the first entry it is not after, so that among equal dates
      the earlier input stays first. */
  function Insert(x: WeightLog, s: seq<WeightLog>): (r: seq<WeightLog>)
    requires SortedByDate(s)
    ensures SortedByDate(r)
    ensures multiset(r) == multiset(s) + multiset{x}
    ensures |r| == |s| + 1
  {
    if s == [] || NotAfter(x.date, s[0].date) then
      assert forall j :: 0 <= j < |s| ==> NotAfter(x.date, s[j].date) by {
        forall j | 0 <= j < |s| ensures NotAfter(x.date, s[j].date) {
          NotAfterTransitive(x.date, s[0].date, s[j].date);
        }
      }
      [x] + s
    else
      var rest := Insert(x, s[1..]);
      assert s == [s[0]] + s[1..];
      assert forall j :: 0 <= j < |rest| ==> NotAfter(s[0].date, rest[j].date) by {
        forall j | 0 <= j < |rest| ensures NotAfter(s[0].date, rest[j].date) {
          assert rest[j] in multiset(rest);
          if rest[j] != x {
            assert rest[j] in multiset(s[1..]);
            var k :| 0 <= k < |s[1..]| && s[1..][k] == rest[j];
            assert NotAfter(s[0].date, s[k + 1].date);
          } else {
            NotAfterTotal(x.date, s[0].date);
          }
        }
      }
      [s[0]] + rest
  }

  /** `sorted(weight_logs, key=date)`: oldest first, the same logs. The order it leaves logs
      of one date in is not stated. */
  function SortByDate(s: seq<WeightLog>): (r: seq<WeightLog>)
    ensures SortedByDate(r)
    ensures multiset(r) == multiset(s)
    ensures |r| == |s|
  {
    if s == [] then []
    else
      assert s == [s[0]] + s[1..];
      Insert(s[0], SortByDate(s[1..]))
  }

  /** The trend of a non-empty list of `entries` logs whose oldest weighs `first` and whose newest weighs `last`. */
  function TrendFrom(entries: nat, first: real, last: real): WeightTrend {
    var change := Round2(last - first);
    var trend := if change < 0.0 then Decreasing else if change > 0.0 then Increasing else Stable;
    WeightTrend(entries, Some(Round2(first)), Some(Round2(last)), Some(change), trend)
  }

  /** `_calculate_weight_trends`. */
  function CalculateWeightTrends(logs: seq<WeightLog>): (r: WeightTrend)
    ensures r.entries == |logs|
    ensures logs == [] <==> r.trend == NoData
    ensures logs == [] ==> r == NoWeightTrend
    ensures logs != [] ==> r.startWeight.Some? && r.endWeight.Some? && r.change.Some?
    ensures r.change.Some? ==>
      && (r.trend == Decreasing <==> r.change.value < 0.0)
      && (r.trend == Increasing <==> r.change.value > 0.0)
      && (r.trend == Stable <==> r.change.value == 0.0)
  {
    if logs == [] then NoWeightTrend
    else
      var sorted := SortByDate(logs);
      TrendFrom(|logs|, sorted[0].weightKg, sorted[|sorted| - 1].weightKg)
  }

  /** At most one log per date: the store's unique (user, date) index. */
  predicate UniqueDates(logs: seq<WeightLog>) {
    forall i, j :: 0 <= i < j < |logs| ==> logs[i].date != logs[j].date
  }

  predicate Earliest(logs: seq<WeightLog>, i: int) {
    0 <= i < |logs| && forall j :: 0 <= j < |logs| ==> NotAfter(logs[i].date, logs[j].date)
  }

  predicate Latest(logs: seq<WeightLog>, i: int) {
    0 <= i < |logs| && forall j :: 0 <= j < |logs| ==> NotAfter(logs[j].date, logs[i].date)
  }

  /** The first entry of the sorted logs is a log no other log precedes. */
  lemma SortedHead(logs: seq<WeightLog>) returns (a: int)
    requires logs != []
    ensures Earliest(logs, a) && logs[a] == SortByDate(logs)[0]
  {
    var s := SortByDate(logs);
    assert s[0] in multiset(logs);
    a :| 0 <= a < |logs| && logs[a] == s[0];
    forall j | 0 <= j < |logs| ensures NotAfter(logs[a].date, logs[j].date) {
      assert logs[j] in multiset(s);
      var p :| 0 <= p < |s| && s[p] == logs[j];
      if p > 0 {
        assert NotAfter(s[0].date, s[p].date);
      }
    }
  }

  /** The last entry of the sorted logs is a log that precedes no other log. */
  lemma SortedLast(logs: seq<WeightLog>) returns (b: int)
    requires logs != []
    ensures Latest(logs, b) && logs[b] == SortByDate(logs)[|logs| - 1]
  {
    var s := SortByDate(logs);
    var n := |logs|;
    assert s[n - 1] in multiset(logs);
    b :| 0 <= b < n && logs[b] == s[n - 1];
    forall j | 0 <= j < n ensures NotAfter(logs[j].date, logs[b].date) {
      assert logs[j] in multiset(s);
      var p :| 0 <= p < n && s[p] == logs[j];
      if p < n - 1 {
        assert NotAfter(s[p].date, s[n - 1].date);
      }
    }
  }

  /** With one log per date, two logs on the same date are the same entry. */
  lemma SameDateSameEntry(logs: seq<WeightLog>, a: int, b: int)
    requires UniqueDates(logs) && 0 <= a < |logs| && 0 <= b < |logs|
    requires logs[a].date == logs[b].date
    ensures a == b
  {
  }

  /** The first and last entries of the sorted logs are the earliest and the latest log. */
  lemma SortedEnds(logs: seq<WeightLog>, e: int, l: int)
    requires UniqueDates(logs) && Earliest(logs, e) && Latest(logs, l)
    ensures SortByDate(logs)[0] == logs[e]
    ensures SortByDate(logs)[|logs| - 1] == logs[l]
  {
    var a := SortedHead(logs);
    assert NotAfter(logs[a].date, logs[e].date) && NotAfter(logs[e].date, logs[a].date);
    SameDateSameEntry(logs, a, e);
    var b := SortedLast(logs);
    assert NotAfter(logs[b].date, logs[l].date) && NotAfter(logs[l].date, logs[b].date);
    SameDateSameEntry(logs, b, l);
  }

  /** With one log per date, the start weight is the earliest log's, the end weight the
      latest log's, the change their rounded difference, and the trend follows its sign:
      increasing or decreasing exactly when the weights differ by more than half a hundredth. */
  lemma WeightTrendEndpoints(logs: seq<WeightLog>, e: int, l: int)
    requires UniqueDates(logs) && Earliest(logs, e) && Latest(logs, l)
    ensures TrendBetween(logs, e, l)
  {
    SortedEnds(logs, e, l);
    TrendOfSorted(logs, e, l);
  }

  /** The report's weight fields for a start log `e` and an end log `l`. */
  ghost predicate TrendBetween(logs: seq<WeightLog>, e: int, l: int)
    requires 0 <= e < |logs| && 0 <= l < |logs|
  {
    var r := CalculateWeightTrends(logs);
    var first, last := logs[e].weightKg, logs[l].weightKg;
    && r.startWeight == Some(Round2(first))
    && r.endWeight == Some(Round2(last))
    && r.change == Some(Round2(last - first))
    && (r.trend == Increasing <==> last - first > 0.005)
    && (r.trend == Decreasing <==> last - first < -0.005)
    && (r.trend == Stable <==> -0.005 <= last - first <= 0.005)
  }

  /** The change and trend, read off the first and last entries of the sorted logs. */
  lemma TrendOfSorted(logs: seq<WeightLog>, e: int, l: int)
    requires 0 <= e < |logs| && 0 <= l < |logs|
    requires SortByDate(logs)[0] == logs[e] && SortByDate(logs)[|logs| - 1] == logs[l]
    ensures TrendBetween(logs, e, l)
  {
    assert CalculateWeightTrends(logs) == TrendFrom(|logs|, logs[e].weightKg, logs[l].weightKg);
    Round2Sign(logs[l].weightKg - logs[e].weightKg);
  }

  /** A single measurement is a stable trend of zero change starting and ending at its weight. */
  lemma SingleWeightIsStable(log: WeightLog)
    ensures var r := CalculateWeightTrends([log]);
      && r.entries == 1
      && r.startWeight == r.endWeight == Some(Round2(log.weightKg))
      && r.change == Some(0.0)
      && r.trend == Stable
  {
    assert SortByDate([log]) == [log] by {
      assert [log][1..] == [];
    }
    RoundWhole(0);
  }
}
