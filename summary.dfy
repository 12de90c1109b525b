/** The summary formatter: the report's human-readable lines. Each line is kept as a value
    carrying the figures it shows; the float-to-text rendering is not modelled. */
module Summary {
  import opened Wrappers
  import opened Dates
  import opened Rounding
  import opened Records
  import opened Stats

  datatype SummaryLine =
    | Header(username: string, start: Date, end: Date)
    | PeriodLine(days: int)
    | Blank
    | WorkoutsLine(sessions: nat, minutes: int)
    | AverageDurationLine(averageMinutes: real)
    | IntensityLine(low: nat, medium: nat, high: nat)
    | NoWorkoutsLine
    | NutritionLine(meals: nat)
    | AverageCaloriesLine(calories: real)
    | AverageMacrosLine(protein: real, carbs: real, fat: real)
    | NoMealsLine
    | WeightLine(measurements: nat)
    | StartWeightLine(kg: Option<real>)
    | EndWeightLine(kg: Option<real>)
    | ChangeLine(plusSign: bool, change: real, trend: Trend)
    | TargetAboveLine(target: real, diff: real)
    | TargetBelowLine(target: real, diff: real)
    | TargetReachedLine(target: real)
    | NoWeightLine
    | WeeklyGoalLine(goal: int)
    | ActualAverageLine(minutesPerWeek: real)
    | GoalAchievedLine
    | GoalShortLine(deficit: real)

  /** Python truthiness of the optional goals: present and not zero. */
  predicate TargetSet(goals: Goals) {
    goals.targetWeight.Some? && goals.targetWeight.value != 0.0
  }

  predicate WeeklyGoalSet(goals: Goals) {
    goals.weeklyWorkoutMinutes.Some? && goals.weeklyWorkoutMinutes.value != 0
  }

  /** What the weight section reads without a `None` check: the change, and the end
      weight when a target is set. */
  predicate WeightSectionDefined(trend: WeightTrend, goals: Goals) {
    trend.entries > 0 ==> trend.change.Some? && (TargetSet(goals) ==> trend.endWeight.Some?)
  }

  function WorkoutSection(stats: WorkoutStats): seq<SummaryLine> {
    if stats.totalWorkouts > 0 then
      [ WorkoutsLine(stats.totalWorkouts, stats.totalMinutes),
        AverageDurationLine(stats.averageDuration),
        IntensityLine(stats.intensityBreakdown.low, stats.intensityBreakdown.medium, stats.intensityBreakdown.high) ]
    else
      [NoWorkoutsLine]
  }

  function NutritionSection(stats: NutritionStats): seq<SummaryLine> {
    if stats.totalMeals > 0 then
      [ NutritionLine(stats.totalMeals),
        AverageCaloriesLine(stats.averageDailyCalories),
        AverageMacrosLine(stats.averageDailyMacros.protein, stats.averageDailyMacros.carbs, stats.averageDailyMacros.fat) ]
    else
      [NoMealsLine]
  }

  /** The comparison with the target weight, from the rounded end weight. */
  function TargetLines(endWeight: real, goals: Goals): seq<SummaryLine>
    requires TargetSet(goals)
  {
    var target := goals.targetWeight.value;
    var diff := Round2(endWeight - target);
    if diff > 0.0 then [TargetAboveLine(target, diff)]
    else if diff < 0.0 then [TargetBelowLine(target, -diff)]
    else [TargetReachedLine(target)]
  }

  function WeightSection(trend: WeightTrend, goals: Goals): seq<SummaryLine>
    requires WeightSectionDefined(trend, goals)
  {
    if trend.entries > 0 then
      var change := trend.change.value;
      [ WeightLine(trend.entries),
        StartWeightLine(trend.startWeight),
        EndWeightLine(trend.endWeight),
        ChangeLine(change > 0.0, change, trend.trend) ]
      + (if TargetSet(goals) then TargetLines(trend.endWeight.value, goals) else [])
    else
      [NoWeightLine]
  }

  /** The average weekly minutes over a window of `days` days: total / (days / 7). */
  function WeeklyAverage(totalMinutes: int, days: int): real
    requires days >= 1
  {
    totalMinutes as real / (days as real / 7.0)
  }

  function GoalsSection(goals: Goals, stats: WorkoutStats, days: int): seq<SummaryLine>
    requires days >= 1
  {
    if WeeklyGoalSet(goals) && stats.totalWorkouts > 0 then
      var goal := goals.weeklyWorkoutMinutes.value;
      var actual := WeeklyAverage(stats.totalMinutes, days);
      [ Blank,
        WeeklyGoalLine(goal),
        ActualAverageLine(Round1(actual)) ]
      + (if actual >= goal as real then [GoalAchievedLine] else [GoalShortLine(Round1(goal as real - actual))])
    else
      []
  }

  /** `_generate_summary`: header and period, then the workout, nutrition, weight and goal sections. */
  function GenerateSummary(
    user: UserDoc, workouts: WorkoutStats, nutrition: NutritionStats, weight: WeightTrend,
    start: Date, end: Date): (lines: seq<SummaryLine>)
    requires NotAfter(start, end)
    requires WeightSectionDefined(weight, user.goals)
    ensures |lines| >= 8
    ensures lines[0] == Header(user.username, start, end)
    ensures lines[1] == PeriodLine(DaysInWindow(start, end)) && lines[1].days >= 1
  {
    var days := DaysInWindow(start, end);
    [Header(user.username, start, end), PeriodLine(days), Blank]
    + WorkoutSection(workouts) + [Blank]
    + NutritionSection(nutrition) + [Blank]
    + WeightSection(weight, user.goals)
    + GoalsSection(user.goals, workouts, days)
  }

  predicate IsTargetLine(l: SummaryLine) {
    l.TargetAboveLine? || l.TargetBelowLine? || l.TargetReachedLine?
  }

  predicate HasTargetLine(lines: seq<SummaryLine>) {
    exists l :: l in lines && IsTargetLine(l)
  }

  predicate HasWeeklyGoalLine(lines: seq<SummaryLine>) {
    exists l :: l in lines && l.WeeklyGoalLine?
  }

  /** Each of the three record sections says that nothing was logged exactly when its count is zero. */
  lemma EmptySectionLines(
    user: UserDoc, workouts: WorkoutStats, nutrition: NutritionStats, weight: WeightTrend,
    start: Date, end: Date)
    requires NotAfter(start, end)
    requires WeightSectionDefined(weight, user.goals)
    ensures var lines := GenerateSummary(user, workouts, nutrition, weight, start, end);
      && (NoWorkoutsLine in lines <==> workouts.totalWorkouts == 0)
      && (NoMealsLine in lines <==> nutrition.totalMeals == 0)
      && (NoWeightLine in lines <==> weight.entries == 0)
  {
    var days := DaysInWindow(start, end);
    var lines := GenerateSummary(user, workouts, nutrition, weight, start, end);
    var w, n, g := WorkoutSection(workouts), NutritionSection(nutrition), GoalsSection(user.goals, workouts, days);
    var m := WeightSection(weight, user.goals);
    assert lines == [Header(user.username, start, end), PeriodLine(days), Blank] + w + [Blank] + n + [Blank] + m + g;
    assert NoWorkoutsLine !in n && NoWorkoutsLine !in m && NoWorkoutsLine !in g;
    assert NoMealsLine !in w && NoMealsLine !in m && NoMealsLine !in g;
    assert NoWeightLine !in w && NoWeightLine !in n && NoWeightLine !in g;
    if weight.entries > 0 && TargetSet(user.goals) {
      assert NoWeightLine !in TargetLines(weight.endWeight.value, user.goals);
    }
  }

  /** The target comparison appears only with measurements and a target; it reads "above"
      when the end weight exceeds the target by more than half a hundredth, "below" (with a
      non-negative distance) when it falls short by more than that, and "reached" otherwise. */
  lemma TargetComparison(endWeight: real, goals: Goals)
    requires TargetSet(goals)
    ensures var lines := TargetLines(endWeight, goals);
      var t := goals.targetWeight.value;
      && |lines| == 1
      && (lines[0].TargetAboveLine? <==> endWeight - t > 0.005)
      && (lines[0].TargetBelowLine? <==> endWeight - t < -0.005)
      && (lines[0].TargetReachedLine? <==> -0.005 <= endWeight - t <= 0.005)
      && (lines[0].TargetAboveLine? || lines[0].TargetBelowLine? ==> lines[0].diff > 0.0)
      && lines[0].target == t
  {
    Round2Sign(endWeight - goals.targetWeight.value);
  }

  /** The weight section carries a target comparison exactly when there are measurements
      and a target is set; its change line shows the change, with a plus sign exactly on an
      increasing trend whenever the trend agrees with the sign of the change. */
  lemma WeightSectionShape(trend: WeightTrend, goals: Goals)
    requires WeightSectionDefined(trend, goals)
    ensures var lines := WeightSection(trend, goals);
      && (HasTargetLine(lines) <==> trend.entries > 0 && TargetSet(goals))
      && (trend.entries > 0 ==> lines[3].ChangeLine? && lines[3].change == trend.change.value)
      && (trend.entries > 0 && (trend.change.value > 0.0 <==> trend.trend == Increasing) ==>
            (lines[3].plusSign <==> trend.trend == Increasing))
      && (trend.entries == 0 ==> lines == [NoWeightLine])
  {
    var lines := WeightSection(trend, goals);
    if trend.entries > 0 && TargetSet(goals) {
      TargetComparison(trend.endWeight.value, goals);
      assert lines[4] == TargetLines(trend.endWeight.value, goals)[0];
      assert lines[4] in lines && IsTargetLine(lines[4]);
    }
  }

  /** For a trend computed from logs, the change line's plus sign marks exactly an increasing trend. */
  lemma ChangeSignMatchesTrend(logs: seq<WeightLog>, goals: Goals)
    requires logs != []
    ensures WeightSectionDefined(CalculateWeightTrends(logs), goals)
    ensures WeightSection(CalculateWeightTrends(logs), goals)[3].ChangeLine?
    ensures WeightSection(CalculateWeightTrends(logs), goals)[3].plusSign
            <==> CalculateWeightTrends(logs).trend == Increasing
  {
  }

  /** The weekly section appears exactly when a weekly goal is set and there were workouts;
      it reports the goal achieved exactly when the weekly average reaches the goal, and
      otherwise a shortfall within a twentieth of goal minus average. */
  lemma WeeklyGoalShape(goals: Goals, stats: WorkoutStats, days: int)
    requires days >= 1
    ensures var lines := GoalsSection(goals, stats, days);
      && (lines != [] <==> WeeklyGoalSet(goals) && stats.totalWorkouts > 0)
      && (GoalAchievedLine in lines <==>
            lines != [] && WeeklyAverage(stats.totalMinutes, days) >= goals.weeklyWorkoutMinutes.value as real)
      && (lines != [] && !(GoalAchievedLine in lines) ==>
            && lines[3].GoalShortLine?
            && lines[3].deficit >= 0.0
            && -0.05 <= lines[3].deficit - (goals.weeklyWorkoutMinutes.value as real - WeeklyAverage(stats.totalMinutes, days)) <= 0.05)
  {
    var lines := GoalsSection(goals, stats, days);
    if lines != [] {
      var goal := goals.weeklyWorkoutMinutes.value as real;
      var actual := WeeklyAverage(stats.totalMinutes, days);
      if actual < goal {
        var k := RoundHalfEven((goal - actual) * 10.0);
        assert k >= 0;
        assert lines[3] == GoalShortLine(Round1(goal - actual));
      }
    }
  }

  /** The lines ahead of the weight section: header, period, workouts and nutrition. */
  function SummaryHead(user: UserDoc, workouts: WorkoutStats, nutrition: NutritionStats, start: Date, end: Date): seq<SummaryLine>
    requires NotAfter(start, end)
  {
    [Header(user.username, start, end), PeriodLine(DaysInWindow(start, end)), Blank]
    + WorkoutSection(workouts) + [Blank] + NutritionSection(nutrition) + [Blank]
  }

  lemma SummaryParts(
    user: UserDoc, workouts: WorkoutStats, nutrition: NutritionStats, weight: WeightTrend,
    start: Date, end: Date)
    requires NotAfter(start, end)
    requires WeightSectionDefined(weight, user.goals)
    ensures GenerateSummary(user, workouts, nutrition, weight, start, end)
      == SummaryHead(user, workouts, nutrition, start, end)
         + WeightSection(weight, user.goals)
         + GoalsSection(user.goals, workouts, DaysInWindow(start, end))
    ensures forall l :: l in SummaryHead(user, workouts, nutrition, start, end) ==>
      !IsTargetLine(l) && !l.WeeklyGoalLine? && l != GoalAchievedLine
  {
  }

  /** In the whole summary, the target comparison appears exactly when there are
      measurements and a target is set. */
  lemma SummaryTargetLine(
    user: UserDoc, workouts: WorkoutStats, nutrition: NutritionStats, weight: WeightTrend,
    start: Date, end: Date)
    requires NotAfter(start, end)
    requires WeightSectionDefined(weight, user.goals)
    ensures HasTargetLine(GenerateSummary(user, workouts, nutrition, weight, start, end))
            <==> weight.entries > 0 && TargetSet(user.goals)
  {
    var lines := GenerateSummary(user, workouts, nutrition, weight, start, end);
    var m := WeightSection(weight, user.goals);
    var g := GoalsSection(user.goals, workouts, DaysInWindow(start, end));
    SummaryParts(user, workouts, nutrition, weight, start, end);
    WeightSectionShape(weight, user.goals);
    if HasTargetLine(lines) {
      var l :| l in lines && IsTargetLine(l);
      assert l !in g;
      assert HasTargetLine(m);
    }
    if weight.entries > 0 && TargetSet(user.goals) {
      var l :| l in m && IsTargetLine(l);
      assert l in lines;
    }
  }

  /** In the whole summary, the weekly section appears exactly when a weekly goal is set and
      there were workouts, and says "achieved" exactly when the weekly average reaches the goal. */
  lemma SummaryWeeklyLines(
    user: UserDoc, workouts: WorkoutStats, nutrition: NutritionStats, weight: WeightTrend,
    start: Date, end: Date)
    requires NotAfter(start, end)
    requires WeightSectionDefined(weight, user.goals)
    ensures var lines := GenerateSummary(user, workouts, nutrition, weight, start, end);
      && (HasWeeklyGoalLine(lines) <==> WeeklyGoalSet(user.goals) && workouts.totalWorkouts > 0)
      && (GoalAchievedLine in lines <==>
            && WeeklyGoalSet(user.goals) && workouts.totalWorkouts > 0
            && WeeklyAverage(workouts.totalMinutes, DaysInWindow(start, end)) >= user.goals.weeklyWorkoutMinutes.value as real)
  {
    var lines := GenerateSummary(user, workouts, nutrition, weight, start, end);
    var m := WeightSection(weight, user.goals);
    var g := GoalsSection(user.goals, workouts, DaysInWindow(start, end));
    SummaryParts(user, workouts, nutrition, weight, start, end);
    WeeklyGoalShape(user.goals, workouts, DaysInWindow(start, end));
    assert forall l :: l in m ==> !l.WeeklyGoalLine? && l != GoalAchievedLine by {
      if weight.entries > 0 && TargetSet(user.goals) {
        TargetComparison(weight.endWeight.value, user.goals);
      }
    }
    if g != [] {
      assert g[1] in lines && g[1].WeeklyGoalLine?;
    } else {
      assert forall l :: l in lines ==> !l.WeeklyGoalLine?;
    }
  }
}
