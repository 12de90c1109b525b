/** The request schemas: field bounds, the username and e-mail normalisers and the
    not-in-the-future checks on dates and meal times. A schema collects one error per
    failing field; clocks are parameters. */
module Schemas {
  import opened Wrappers
  import opened Text
  import opened Dates
  import opened Records
  import opened Stats
  import opened Summary

  datatype Problem = OutOfRange | NotAlphanumeric | NotAnIntensity | InFuture | IncomparableDatetimes

  /** The fields an error can name, as the schemas spell them. */
  datatype Field =
    | Username | FullName | TargetWeight | WeeklyWorkoutMinutes
    | Type | DurationMinutes | Intensity | WorkoutDate | Notes
    | WeightKg | LogDate
    | Name | Calories | Protein | Carbs | Fat | Time

  datatype FieldError = FieldError(field: Field, problem: Problem)

  type Validated<T> = Result<T, seq<FieldError>>

  /** The fields the errors name. */
  function Names(errors: seq<FieldError>): set<Field> {
    set e | e in errors :: e.field
  }

  /** Prepends the error for `field` when its constraint fails. */
  function Check(ok: bool, field: Field, problem: Problem, rest: seq<FieldError>): (r: seq<FieldError>)
    ensures r == [] <==> ok && rest == []
    ensures forall g :: g in Names(r) <==> (!ok && g == field) || g in Names(rest)
  {
    if ok then rest
    else
      var r := [FieldError(field, problem)] + rest;
      assert r[1..] == rest;
      r
  }

  function Outcome<T>(value: T, errors: seq<FieldError>): (r: Validated<T>)
    ensures r.Ok? <==> errors == []
    ensures r.Ok? ==> r.value == value
    ensures r.Err? ==> r.error == errors
  {
    if errors == [] then Ok(value) else Err(errors)
  }

  /** The schema rejected the input and named `field` among the failures. */
  predicate Flagged<T>(r: Validated<T>, field: Field) {
    r.Err? && field in Names(r.error)
  }

  predicate WithinLength(s: string, low: nat, high: nat) {
    low <= |s| <= high
  }

  predicate OptionalWithin(s: Option<string>, high: nat) {
    s.Some? ==> |s.value| <= high
  }

  /** `Literal["low", "medium", "high"]`. */
  predicate IsIntensity(s: string) {
    s == "low" || s == "medium" || s == "high"
  }

  // ---------------------------------------------------------------- users

  /** `username_alphanumeric`, after the 3..50 length bound: alphanumeric once underscores
      and hyphens are removed, and stored lower-cased. */
  function ValidateUsername(v: string): (r: Result<string, Problem>)
    ensures r.Ok? <==> 3 <= |v| <= 50 && IsAlnum(Remove(Remove(v, '_'), '-'))
    ensures r.Err? ==> r.error == (if 3 <= |v| <= 50 then NotAlphanumeric else OutOfRange)
    ensures r.Ok? ==> |r.value| == |v| && Lower(r.value) == r.value
    ensures r.Ok? ==> forall i :: 0 <= i < |v| ==> r.value[i] == LowerChar(v[i])
  {
    if !(3 <= |v| <= 50) then Err(OutOfRange)
    else if !IsAlnum(Remove(Remove(v, '_'), '-')) then Err(NotAlphanumeric)
    else
      LowerAt(v);
      LowerIdempotent(v);
      Ok(Lower(v))
  }

  /** Whether a name is accepted does not depend on its case. */
  lemma UsernameCaseInsensitive(a: string, b: string)
    requires Lower(a) == Lower(b)
    ensures ValidateUsername(a) == ValidateUsername(b)
  {
    LowerAt(a);
    LowerAt(b);
    AcceptanceIgnoresCase(a);
    AcceptanceIgnoresCase(b);
  }

  lemma AcceptanceIgnoresCase(v: string)
    ensures IsAlnum(Remove(Remove(v, '_'), '-')) <==> IsAlnum(Remove(Remove(Lower(v), '_'), '-'))
  {
    var inner := Remove(v, '_');
    LowerRemoveCommute(v, '_');
    LowerRemoveCommute(inner, '-');
    LowerKeepsAlnum(Remove(inner, '-'));
  }

  /** An accepted username is made of ASCII letters, digits, '_' and '-' only, and has at
      least one letter or digit. */
  lemma AcceptedUsernameCharacters(v: string)
    requires ValidateUsername(v).Ok?
    ensures forall i :: 0 <= i < |v| ==> IsAsciiAlnumChar(v[i]) || v[i] == '_' || v[i] == '-'
    ensures exists i :: 0 <= i < |v| && IsAsciiAlnumChar(v[i])
  {
    var kept := Remove(Remove(v, '_'), '-');
    RemoveSpec(v, '_');
    RemoveSpec(Remove(v, '_'), '-');
    forall i | 0 <= i < |v| && v[i] != '_' && v[i] != '-'
      ensures IsAsciiAlnumChar(v[i])
    {
      assert v[i] in kept;
      var k :| 0 <= k < |kept| && kept[k] == v[i];
    }
    assert kept[0] in v;
    var i :| 0 <= i < |v| && v[i] == kept[0];
  }

  /** A stored username validates to itself. */
  lemma UsernameIdempotent(v: string)
    requires ValidateUsername(v).Ok?
    ensures ValidateUsername(ValidateUsername(v).value) == ValidateUsername(v)
  {
    LowerIdempotent(v);
    UsernameCaseInsensitive(v, Lower(v));
  }

  /** `email_lowercase` (the address syntax itself is checked by the e-mail type). */
  function EmailLowercase(v: string): (r: string)
    ensures |r| == |v| && Lower(r) == r
    ensures forall i :: 0 <= i < |v| ==> r[i] == LowerChar(v[i])
  {
    LowerAt(v);
    LowerIdempotent(v);
    Lower(v)
  }

  datatype UserInput = UserInput(username: string, email: string, fullName: Option<string>, goals: Goals)

  /** `FitnessGoals`' errors, ahead of `rest`. */
  function GoalErrors(g: Goals, rest: seq<FieldError>): (r: seq<FieldError>)
    ensures r == [] <==>
      && (g.targetWeight.Some? ==> g.targetWeight.value > 0.0)
      && (g.weeklyWorkoutMinutes.Some? ==> g.weeklyWorkoutMinutes.value >= 0)
      && rest == []
    ensures forall f :: f in Names(r) <==>
      || (f == TargetWeight && g.targetWeight.Some? && g.targetWeight.value <= 0.0)
      || (f == WeeklyWorkoutMinutes && g.weeklyWorkoutMinutes.Some? && g.weeklyWorkoutMinutes.value < 0)
      || f in Names(rest)
  {
    Check(g.targetWeight.None? || g.targetWeight.value > 0.0, TargetWeight, OutOfRange,
    Check(g.weeklyWorkoutMinutes.None? || g.weeklyWorkoutMinutes.value >= 0, WeeklyWorkoutMinutes, OutOfRange,
    rest))
  }

  /** `FitnessGoals`: a target weight above zero and a weekly goal of at least zero, when given. */
  function ValidateGoals(g: Goals): (r: Validated<Goals>)
    ensures r.Ok? <==>
      && (g.targetWeight.Some? ==> g.targetWeight.value > 0.0)
      && (g.weeklyWorkoutMinutes.Some? ==> g.weeklyWorkoutMinutes.value >= 0)
    ensures r.Ok? ==> r.value == g
    ensures Flagged(r, TargetWeight) <==> g.targetWeight.Some? && g.targetWeight.value <= 0.0
    ensures Flagged(r, WeeklyWorkoutMinutes) <==> g.weeklyWorkoutMinutes.Some? && g.weeklyWorkoutMinutes.value < 0
  {
    Outcome(g, GoalErrors(g, []))
  }

  /** For accepted goals, the summary's truthiness test on the target is plain presence,
      while a weekly goal of zero is present but switches the weekly section off. */
  lemma ValidGoalsTruthiness(g: Goals)
    requires ValidateGoals(g).Ok?
    ensures TargetSet(g) <==> g.targetWeight.Some?
    ensures WeeklyGoalSet(g) <==> g.weeklyWorkoutMinutes.Some? && g.weeklyWorkoutMinutes.value > 0
  {
  }

  /** `UserBase`: the username rules, at most 100 characters of full name, valid goals; the
      username and e-mail come back lower-cased. */
  function ValidateUser(u: UserInput): (r: Validated<UserInput>)
    ensures r.Ok? <==>
      && ValidateUsername(u.username).Ok?
      && OptionalWithin(u.fullName, 100)
      && ValidateGoals(u.goals).Ok?
    ensures r.Ok? ==> r.value == u.(username := ValidateUsername(u.username).value, email := EmailLowercase(u.email))
    ensures Flagged(r, Username) <==> ValidateUsername(u.username).Err?
    ensures Flagged(r, FullName) <==> !OptionalWithin(u.fullName, 100)
    ensures Flagged(r, TargetWeight) <==> Flagged(ValidateGoals(u.goals), TargetWeight)
    ensures Flagged(r, WeeklyWorkoutMinutes) <==> Flagged(ValidateGoals(u.goals), WeeklyWorkoutMinutes)
  {
    var name := ValidateUsername(u.username);
    Outcome(u.(username := if name.Ok? then name.value else u.username, email := EmailLowercase(u.email)),
      Check(name.Ok?, Username, if name.Err? then name.error else OutOfRange,
      Check(OptionalWithin(u.fullName, 100), FullName, OutOfRange,
      GoalErrors(u.goals, []))))
  }

  // ---------------------------------------------------------------- dates

  /** `date_not_future`: a date is accepted up to and including today. */
  function DateNotFuture(v: Date, today: Date): (r: Result<Date, Problem>)
    ensures r.Ok? <==> Ordinal(v) <= Ordinal(today)
    ensures r.Ok? ==> r.value == v
    ensures r.Err? ==> r.error == InFuture
  {
    NotAfterTotal(v, today);
    if Before(today, v) then
      OrdinalMonotone(today, v);
      Err(InFuture)
    else
      OrdinalNotAfter(v, today);
      Ok(v)
  }

  // ---------------------------------------------------------------- workouts

  /** `WorkoutBase`. */
  function ValidateWorkout(w: Workout, today: Date): (r: Validated<Workout>)
    ensures r.Ok? <==>
      && WithinLength(w.kind, 1, 50)
      && w.durationMinutes > 0
      && IsIntensity(w.intensity)
      && Ordinal(w.date) <= Ordinal(today)
      && OptionalWithin(w.notes, 500)
    ensures r.Ok? ==> r.value == w
    ensures Flagged(r, Type) <==> !WithinLength(w.kind, 1, 50)
    ensures Flagged(r, DurationMinutes) <==> w.durationMinutes <= 0
    ensures Flagged(r, Intensity) <==> !IsIntensity(w.intensity)
    ensures Flagged(r, WorkoutDate) <==> Ordinal(w.date) > Ordinal(today)
    ensures Flagged(r, Notes) <==> !OptionalWithin(w.notes, 500)
  {
    Outcome(w, WorkoutErrors(WithinLength(w.kind, 1, 50), w.durationMinutes > 0, IsIntensity(w.intensity),
                             DateNotFuture(w.date, today).Ok?, OptionalWithin(w.notes, 500)))
  }

  /** The error list of a workout schema, in field order, from the outcome of each check. */
  function WorkoutErrors(kindOk: bool, durationOk: bool, intensityOk: bool, dateOk: bool, notesOk: bool): (r: seq<FieldError>)
    ensures r == [] <==> kindOk && durationOk && intensityOk && dateOk && notesOk
    ensures forall f :: f in Names(r) <==>
      || (f == Type && !kindOk)
      || (f == DurationMinutes && !durationOk)
      || (f == Intensity && !intensityOk)
      || (f == WorkoutDate && !dateOk)
      || (f == Notes && !notesOk)
  {
    Check(kindOk, Type, OutOfRange,
    Check(durationOk, DurationMinutes, OutOfRange,
    Check(intensityOk, Intensity, NotAnIntensity,
    Check(dateOk, WorkoutDate, InFuture,
    Check(notesOk, Notes, OutOfRange,
    [])))))
  }

  /** Statistics over accepted workouts: every workout lands in exactly one intensity
      bucket and every duration is positive. */
  lemma ValidatedWorkoutStats(workouts: seq<Workout>, today: Date)
    requires forall i :: 0 <= i < |workouts| ==> ValidateWorkout(workouts[i], today).Ok?
    ensures var r := CalculateWorkoutStats(workouts);
      && r.intensityBreakdown.low + r.intensityBreakdown.medium + r.intensityBreakdown.high == r.totalWorkouts
      && r.totalMinutes >= r.totalWorkouts
  {
    WorkoutStatsCounts(workouts);
    MinutesAtLeastCount(workouts, today);
  }

  lemma {:induction false} MinutesAtLeastCount(workouts: seq<Workout>, today: Date)
    requires forall i :: 0 <= i < |workouts| ==> ValidateWorkout(workouts[i], today).Ok?
    ensures Folds.SumInt(workouts, Minutes) >= |workouts|
  {
    if workouts != [] {
      assert ValidateWorkout(workouts[0], today).Ok?;
      assert forall i :: 0 <= i < |workouts[1..]| ==> workouts[1..][i] == workouts[i + 1];
      MinutesAtLeastCount(workouts[1..], today);
    }
  }

  datatype WorkoutUpdate = WorkoutUpdate(
    kind: Option<string>,
    durationMinutes: Option<int>,
    intensity: Option<string>,
    date: Option<Date>,
    notes: Option<string>)

  /** `WorkoutUpdate`: each field that is given obeys the creation bound. */
  function ValidateWorkoutUpdate(u: WorkoutUpdate, today: Date): (r: Validated<WorkoutUpdate>)
    ensures r.Ok? <==>
      && (u.kind.Some? ==> WithinLength(u.kind.value, 1, 50))
      && (u.durationMinutes.Some? ==> u.durationMinutes.value > 0)
      && (u.intensity.Some? ==> IsIntensity(u.intensity.value))
      && (u.date.Some? ==> Ordinal(u.date.value) <= Ordinal(today))
      && OptionalWithin(u.notes, 500)
    ensures r.Ok? ==> r.value == u
    ensures Flagged(r, WorkoutDate) <==> u.date.Some? && Ordinal(u.date.value) > Ordinal(today)
  {
    Outcome(u, WorkoutErrors(
      u.kind.None? || WithinLength(u.kind.value, 1, 50),
      u.durationMinutes.None? || u.durationMinutes.value > 0,
      u.intensity.None? || IsIntensity(u.intensity.value),
      u.date.None? || DateNotFuture(u.date.value, today).Ok?,
      OptionalWithin(u.notes, 500)))
  }

  /** An update that gives every field of a workout is accepted exactly when the workout is,
      and an empty update always is. */
  lemma WorkoutUpdateAgreesWithCreate(w: Workout, today: Date)
    ensures ValidateWorkoutUpdate(WorkoutUpdate(Some(w.kind), Some(w.durationMinutes), Some(w.intensity), Some(w.date), w.notes), today).Ok?
            <==> ValidateWorkout(w, today).Ok?
    ensures ValidateWorkoutUpdate(WorkoutUpdate(None, None, None, None, None), today).Ok?
  {
  }

  // ---------------------------------------------------------------- weight logs

  /** `WeightLogBase`: a weight in (0, 500] kilograms, dated no later than today. */
  function ValidateWeightLog(l: WeightLog, today: Date): (r: Validated<WeightLog>)
    ensures r.Ok? <==> 0.0 < l.weightKg <= 500.0 && Ordinal(l.date) <= Ordinal(today)
    ensures r.Ok? ==> r.value == l
    ensures Flagged(r, WeightKg) <==> !(0.0 < l.weightKg <= 500.0)
    ensures Flagged(r, LogDate) <==> Ordinal(l.date) > Ordinal(today)
  {
    Outcome(l,
      Check(0.0 < l.weightKg <= 500.0, WeightKg, OutOfRange,
      Check(DateNotFuture(l.date, today).Ok?, LogDate, InFuture,
      [])))
  }

  // ---------------------------------------------------------------- meals

  /** A UTC offset: strictly less than a day either way, in microseconds. */
  type UtcOffset = o: int | -(MicrosPerDay as int) < o < MicrosPerDay

  /** A `datetime` as the request gives it: naive, or wall-clock time with its UTC offset. */
  datatype MealTime = Naive(local: NaiveDateTime) | Aware(wall: NaiveDateTime, offset: UtcOffset)

  /** The UTC instant an aware time denotes. */
  function UtcInstant(t: MealTime): int
    requires t.Aware?
  {
    Instant(t.wall) - t.offset
  }

  /** `MealBase.time_not_future` as written: a naive time is compared with the local clock;
      an aware time is compared with the naive UTC clock, which Python refuses to do. */
  function TimeNotFutureAsWritten(v: MealTime, localNow: NaiveDateTime, utcNow: NaiveDateTime): (r: Result<MealTime, Problem>)
    ensures r.Ok? ==> v.Naive? && r.value == v
    ensures v.Naive? ==> (r.Ok? <==> Instant(v.local) <= Instant(localNow))
  {
    match v
    case Naive(t) =>
      BeforeTimeInstant(localNow, t);
      if BeforeTime(localNow, t) then Err(InFuture) else Ok(v)
    case Aware(_, _) => Err(IncomparableDatetimes)
  }

  /** The check as its comment intends: naive times against the local clock, aware times
      by their UTC instant against the UTC clock. */
  function TimeNotFuture(v: MealTime, localNow: NaiveDateTime, utcNow: NaiveDateTime): (r: Result<MealTime, Problem>)
    ensures v.Naive? ==> (r.Ok? <==> !BeforeTime(localNow, v.local))
    ensures r.Ok? ==> r.value == v
    ensures r.Err? ==> r.error == InFuture
  {
    match v
    case Naive(t) => if BeforeTime(localNow, t) then Err(InFuture) else Ok(v)
    case Aware(_, _) => if UtcInstant(v) > Instant(utcNow) then Err(InFuture) else Ok(v)
  }

  /** The intended check accepts exactly the times whose instant is not after now: a naive
      time on the local clock, an aware one on the UTC clock. */
  lemma TimeNotFutureByInstant(v: MealTime, localNow: NaiveDateTime, utcNow: NaiveDateTime)
    ensures TimeNotFuture(v, localNow, utcNow).Ok? <==>
      && (v.Naive? ==> Instant(v.local) <= Instant(localNow))
      && (v.Aware? ==> UtcInstant(v) <= Instant(utcNow))
  {
    if v.Naive? {
      BeforeTimeInstant(localNow, v.local);
    }
  }

  /** Every aware meal time is refused as written, including every one already past,
      which the intended check accepts. */
  lemma AwareMealTimesRefused(v: MealTime, localNow: NaiveDateTime, utcNow: NaiveDateTime)
    requires v.Aware?
    ensures TimeNotFutureAsWritten(v, localNow, utcNow) == Err(IncomparableDatetimes)
    ensures UtcInstant(v) <= Instant(utcNow) ==> TimeNotFuture(v, localNow, utcNow).Ok?
  {
  }

  /** The two agree on naive times. */
  lemma NaiveMealTimesAgree(v: MealTime, localNow: NaiveDateTime, utcNow: NaiveDateTime)
    requires v.Naive?
    ensures TimeNotFutureAsWritten(v, localNow, utcNow) == TimeNotFuture(v, localNow, utcNow)
  {
  }

  /** A concrete input: noon UTC on 1 January 2024, checked on 1 June 2024. */
  lemma AwareMealTimeExample()
    ensures var noon := CivilDateTime(CivilDate(2024, 1, 1), 43_200_000_000);
      var now := CivilDateTime(CivilDate(2024, 6, 1), 0);
      && TimeNotFutureAsWritten(Aware(noon, 0), now, now).Err?
      && TimeNotFuture(Aware(noon, 0), now, now).Ok?
  {
    var noon := CivilDateTime(CivilDate(2024, 1, 1), 43_200_000_000);
    var now := CivilDateTime(CivilDate(2024, 6, 1), 0);
    assert BeforeTime(noon, now);
    BeforeTimeInstant(noon, now);
  }

  /** `MacroNutrients`: no negative amount. */
  predicate MacrosValid(m: Macros) {
    m.protein >= 0.0 && m.carbs >= 0.0 && m.fat >= 0.0
  }

  /** `MacroNutrients`' errors, ahead of `rest`. */
  function MacroErrors(m: Macros, rest: seq<FieldError>): (r: seq<FieldError>)
    ensures r == [] <==> MacrosValid(m) && rest == []
    ensures forall g :: g in Names(r) <==>
      || (g == Protein && m.protein < 0.0)
      || (g == Carbs && m.carbs < 0.0)
      || (g == Fat && m.fat < 0.0)
      || g in Names(rest)
  {
    Check(m.protein >= 0.0, Protein, OutOfRange,
    Check(m.carbs >= 0.0, Carbs, OutOfRange,
    Check(m.fat >= 0.0, Fat, OutOfRange,
    rest)))
  }

  datatype MealInput = MealInput(name: string, calories: int, macros: Macros, time: MealTime, notes: Option<string>)

  /** `MealBase`, with the intended time check. */
  function ValidateMeal(m: MealInput, localNow: NaiveDateTime, utcNow: NaiveDateTime): (r: Validated<MealInput>)
    ensures r.Ok? <==>
      && WithinLength(m.name, 1, 100)
      && m.calories > 0
      && MacrosValid(m.macros)
      && TimeNotFuture(m.time, localNow, utcNow).Ok?
      && OptionalWithin(m.notes, 500)
    ensures r.Ok? ==> r.value == m
  {
    Outcome(m, MealErrors(WithinLength(m.name, 1, 100), m.calories > 0, m.macros,
                          TimeNotFuture(m.time, localNow, utcNow).Ok?, OptionalWithin(m.notes, 500)))
  }

  /** The error list `ValidateMeal` builds, in field order, from the outcome of each check. */
  function MealErrors(nameOk: bool, caloriesOk: bool, macros: Macros, timeOk: bool, notesOk: bool): seq<FieldError> {
    Check(nameOk, Name, OutOfRange,
    Check(caloriesOk, Calories, OutOfRange,
    MacroErrors(macros,
    Check(timeOk, Time, InFuture,
    Check(notesOk, Notes, OutOfRange,
    [])))))
  }

  /** The meal constraint on field `f` fails (never for fields a meal does not have). */
  predicate MealFieldFails(nameOk: bool, caloriesOk: bool, macros: Macros, timeOk: bool, notesOk: bool, f: Field) {
    || (f == Name && !nameOk)
    || (f == Calories && !caloriesOk)
    || (f == Protein && macros.protein < 0.0)
    || (f == Carbs && macros.carbs < 0.0)
    || (f == Fat && macros.fat < 0.0)
    || (f == Time && !timeOk)
    || (f == Notes && !notesOk)
  }

  lemma MealErrorsNames(nameOk: bool, caloriesOk: bool, macros: Macros, timeOk: bool, notesOk: bool, f: Field)
    ensures f in Names(MealErrors(nameOk, caloriesOk, macros, timeOk, notesOk))
            <==> MealFieldFails(nameOk, caloriesOk, macros, timeOk, notesOk, f)
  {
  }

  /** A rejected meal names exactly the fields whose constraints fail. */
  lemma MealErrorsNameFields(m: MealInput, localNow: NaiveDateTime, utcNow: NaiveDateTime, f: Field)
    ensures Flagged(ValidateMeal(m, localNow, utcNow), f) <==>
      MealFieldFails(WithinLength(m.name, 1, 100), m.calories > 0, m.macros,
                     TimeNotFuture(m.time, localNow, utcNow).Ok?, OptionalWithin(m.notes, 500), f)
  {
    MealErrorsNames(WithinLength(m.name, 1, 100), m.calories > 0, m.macros,
                    TimeNotFuture(m.time, localNow, utcNow).Ok?, OptionalWithin(m.notes, 500), f);
  }

  datatype MealUpdate = MealUpdate(
    name: Option<string>,
    calories: Option<int>,
    macros: Option<Macros>,
    time: Option<MealTime>,
    notes: Option<string>)

  /** `MealUpdate.time_not_future` as written: every time is compared with the naive UTC
      clock, so an aware time is refused as at creation. */
  function UpdateTimeNotFutureAsWritten(v: Option<MealTime>, utcNow: NaiveDateTime): (r: Result<Option<MealTime>, Problem>)
    ensures r.Ok? ==> r.value == v && (v.Some? ==> v.value.Naive?)
    ensures v.None? ==> r.Ok?
    ensures v.Some? && v.value.Naive? ==> (r.Ok? <==> Instant(v.value.local) <= Instant(utcNow))
  {
    match v
    case None => Ok(None)
    case Some(Naive(t)) =>
      BeforeTimeInstant(utcNow, t);
      if BeforeTime(utcNow, t) then Err(InFuture) else Ok(v)
    case Some(Aware(_, _)) => Err(IncomparableDatetimes)
  }

  /** The update check with aware times compared by their UTC instant; naive times keep
      the UTC clock the code compares them with. */
  function UpdateTimeNotFuture(v: Option<MealTime>, utcNow: NaiveDateTime): (r: Result<Option<MealTime>, Problem>)
    ensures r.Ok? <==>
      v.None? || (v.value.Naive? && Instant(v.value.local) <= Instant(utcNow))
              || (v.value.Aware? && UtcInstant(v.value) <= Instant(utcNow))
    ensures r.Ok? ==> r.value == v
    ensures r.Err? ==> r.error == InFuture
  {
    match v
    case None => Ok(None)
    case Some(Naive(t)) =>
      BeforeTimeInstant(utcNow, t);
      if BeforeTime(utcNow, t) then Err(InFuture) else Ok(v)
    case Some(Aware(_, _)) =>
      if UtcInstant(v.value) > Instant(utcNow) then Err(InFuture) else Ok(v)
  }

  /** The update check as written refuses every aware time, past ones included. */
  lemma AwareUpdateTimesRefused(v: MealTime, utcNow: NaiveDateTime)
    requires v.Aware?
    ensures UpdateTimeNotFutureAsWritten(Some(v), utcNow) == Err(IncomparableDatetimes)
    ensures UtcInstant(v) <= Instant(utcNow) ==> UpdateTimeNotFuture(Some(v), utcNow).Ok?
  {
  }

  /** The two update checks agree on an absent or a naive time. */
  lemma NaiveUpdateTimesAgree(v: Option<MealTime>, utcNow: NaiveDateTime)
    requires v.Some? ==> v.value.Naive?
    ensures UpdateTimeNotFutureAsWritten(v, utcNow) == UpdateTimeNotFuture(v, utcNow)
  {
  }

  /** `MealUpdate`, with the intended time check. */
  function ValidateMealUpdate(u: MealUpdate, utcNow: NaiveDateTime): (r: Validated<MealUpdate>)
    ensures r.Ok? <==>
      && (u.name.Some? ==> WithinLength(u.name.value, 1, 100))
      && (u.calories.Some? ==> u.calories.value > 0)
      && (u.macros.Some? ==> MacrosValid(u.macros.value))
      && UpdateTimeNotFuture(u.time, utcNow).Ok?
      && OptionalWithin(u.notes, 500)
    ensures r.Ok? ==> r.value == u
    ensures Flagged(r, Time) <==> UpdateTimeNotFuture(u.time, utcNow).Err?
  {
    Outcome(u,
      Check(u.name.None? || WithinLength(u.name.value, 1, 100), Name, OutOfRange,
      Check(u.calories.None? || u.calories.value > 0, Calories, OutOfRange,
      var rest :=
        Check(UpdateTimeNotFuture(u.time, utcNow).Ok?, Time, InFuture,
        Check(OptionalWithin(u.notes, 500), Notes, OutOfRange,
        []));
      if u.macros.Some? then MacroErrors(u.macros.value, rest) else rest)))
  }
}
