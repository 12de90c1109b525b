/** Report generation: resolving the user, assembling the report from the store, and the
    cache-aside path around it. */
module ReportService {
  import opened Wrappers
  import opened Text
  import opened Dates
  import opened Folds
  import opened Records
  import opened Stats
  import opened Summary
  import opened Cache

  datatype UserInfo = UserInfo(username: string, email: string, fullName: Option<string>)

  datatype Period = Period(startDate: string, endDate: string, days: int)

  datatype Report = Report(
    user: UserInfo,
    period: Period,
    workouts: WorkoutStats,
    nutrition: NutritionStats,
    weight: WeightTrend,
    summary: seq<SummaryLine>,
    fromCache: bool)

  /** The `ValueError` raised when neither lookup finds the user. */
  datatype ReportError = UserNotFound(userId: string)

  /** Lookup by identity first, then by username. */
  function ResolveUser(store: Store, userId: string): (r: Option<UserDoc>)
    ensures r.Some? <==>
      || (exists i :: 0 <= i < |store.users| && store.users[i].id == userId)
      || (exists i :: 0 <= i < |store.users| && store.users[i].username == Lower(userId))
    ensures r.Some? ==> r.value in store.users && (r.value.id == userId || r.value.username == Lower(userId))
    ensures GetUserById(store, userId).Some? ==> r == GetUserById(store, userId)
  {
    var byId := GetUserById(store, userId);
    if byId.Some? then byId else GetUserByUsername(store, userId)
  }

  /** The cache key of a report: built from the identifier as the caller gave it. */
  function ReportKey(userId: string, start: Date, end: Date): string {
    ReportCacheKey(userId, IsoFormat(start), IsoFormat(end))
  }

  /** `_build_report`: the resolved user's records in the window, the three calculators and
      the summary. The record queries use the resolved username, whichever form the caller gave. */
  function BuildReport(store: Store, userId: string, start: Date, end: Date): (r: Result<Report, ReportError>)
    requires NotAfter(start, end)
    ensures r.Err? <==> ResolveUser(store, userId).None?
    ensures r.Err? ==> r.error == UserNotFound(userId)
    ensures r.Ok? ==>
      var u := ResolveUser(store, userId).value;
      && r.value.user == UserInfo(u.username, u.email, u.fullName)
      && r.value.period.days == DaysInWindow(start, end) >= 1
      && r.value.period.startDate == IsoFormat(start) && r.value.period.endDate == IsoFormat(end)
      && r.value.workouts == CalculateWorkoutStats(GetWorkouts(store, u.username, start, end))
      && r.value.nutrition == CalculateNutritionStats(GetMeals(store, u.username, start, end), start, end)
      && r.value.weight == CalculateWeightTrends(GetWeightLogs(store, u.username, start, end))
      && r.value.summary == GenerateSummary(u, r.value.workouts, r.value.nutrition, r.value.weight, start, end)
      && |r.value.summary| >= 8 && r.value.summary[0] == Header(u.username, start, end)
      && !r.value.fromCache
  {
    match ResolveUser(store, userId)
    case None => Err(UserNotFound(userId))
    case Some(user) =>
      var username := user.username;
      var workoutStats := CalculateWorkoutStats(GetWorkouts(store, username, start, end));
      var nutritionStats := CalculateNutritionStats(GetMeals(store, username, start, end), start, end);
      var weightTrends := CalculateWeightTrends(GetWeightLogs(store, username, start, end));
      var summary := GenerateSummary(user, workoutStats, nutritionStats, weightTrends, start, end);
      Ok(Report(
        UserInfo(user.username, user.email, user.fullName),
        Period(IsoFormat(start), IsoFormat(end), DaysInWindow(start, end)),
        workoutStats,
        nutritionStats,
        weightTrends,
        summary,
        false))
  }

  /** The report's counts are the numbers of the resolved user's records inside the window,
      and each "nothing logged" line appears exactly when there is no such record. */
  lemma ReportCountsUserRecords(store: Store, userId: string, start: Date, end: Date)
    requires NotAfter(start, end)
    ensures var r := BuildReport(store, userId, start, end);
      r.Ok? ==>
        var u := ResolveUser(store, userId).value.username;
        && r.value.workouts.totalWorkouts == Count(store.workouts, WorkoutOf(u, start, end))
        && r.value.nutrition.totalMeals == Count(store.meals, MealOf(u, start, end))
        && r.value.weight.entries == Count(store.weightLogs, WeightLogOf(u, start, end))
        && (NoWorkoutsLine in r.value.summary <==>
              forall w :: w in store.workouts ==> !(w.userId == u && InWindow(w.date, start, end)))
        && (NoMealsLine in r.value.summary <==>
              forall m :: m in store.meals ==> !(m.userId == u && InWindow(m.time.date, start, end)))
        && (NoWeightLine in r.value.summary <==>
              forall l :: l in store.weightLogs ==> !(l.userId == u && InWindow(l.date, start, end)))
  {
    var r := BuildReport(store, userId, start, end);
    if r.Ok? {
      var user := ResolveUser(store, userId).value;
      var u := user.username;
      var ws, ms, ls := GetWorkouts(store, u, start, end), GetMeals(store, u, start, end), GetWeightLogs(store, u, start, end);
      FilterCount(store.workouts, WorkoutOf(u, start, end));
      FilterCount(store.meals, MealOf(u, start, end));
      FilterCount(store.weightLogs, WeightLogOf(u, start, end));
      EmptySectionLines(user, r.value.workouts, r.value.nutrition, r.value.weight, start, end);
      if ws != [] { assert ws[0] in store.workouts; }
      if ms != [] { assert ms[0] in store.meals; }
      if ls != [] { assert ls[0] in store.weightLogs; }
    }
  }

  /** A built report's summary carries the target comparison exactly when the user has
      weight logs in the window and a target, and the weekly section exactly when the user
      has a weekly goal and workouts in the window. */
  lemma ReportGoalLines(store: Store, userId: string, start: Date, end: Date)
    requires NotAfter(start, end)
    ensures var r := BuildReport(store, userId, start, end);
      r.Ok? ==>
        var u := ResolveUser(store, userId).value;
        && (HasTargetLine(r.value.summary) <==>
              GetWeightLogs(store, u.username, start, end) != [] && TargetSet(u.goals))
        && (HasWeeklyGoalLine(r.value.summary) <==>
              WeeklyGoalSet(u.goals) && GetWorkouts(store, u.username, start, end) != [])
  {
    var r := BuildReport(store, userId, start, end);
    if r.Ok? {
      var u := ResolveUser(store, userId).value;
      var ws := GetWorkouts(store, u.username, start, end);
      var ls := GetWeightLogs(store, u.username, start, end);
      if ls != [] {
        ChangeSignMatchesTrend(ls, u.goals);
      }
      SummaryTargetLine(u, r.value.workouts, r.value.nutrition, r.value.weight, start, end);
      SummaryWeeklyLines(u, r.value.workouts, r.value.nutrition, r.value.weight, start, end);
    }
  }

  /** A workout filed under the user's identity rather than the username is invisible to
      the report, whose queries go by username: adding it leaves the report as it was. */
  lemma IdentityFiledWorkoutUnreported(store: Store, userId: string, start: Date, end: Date, w: Workout)
    requires NotAfter(start, end)
    requires ResolveUser(store, userId).Some?
    requires w.userId == ResolveUser(store, userId).value.id != ResolveUser(store, userId).value.username
    ensures BuildReport(store.(workouts := store.workouts + [w]), userId, start, end)
            == BuildReport(store, userId, start, end)
  {
    var u := ResolveUser(store, userId).value.username;
    FilterSkipsRejected(store.workouts, w, WorkoutOf(u, start, end));
  }

  /** What the store guarantees of its users: unique identities and unique lower-case
      usernames, and no username that is also some user's identity. */
  predicate WellFormedUsers(store: Store) {
    && (forall i, j :: 0 <= i < |store.users| && 0 <= j < |store.users| && store.users[i].id == store.users[j].id ==> i == j)
    && (forall i, j :: 0 <= i < |store.users| && 0 <= j < |store.users| && store.users[i].username == store.users[j].username ==> i == j)
    && (forall i, j :: 0 <= i < |store.users| && 0 <= j < |store.users| ==> store.users[i].id != store.users[j].username)
    && (forall i :: 0 <= i < |store.users| ==> Lower(store.users[i].username) == store.users[i].username)
  }

  /** A user is found by identity and by username alike. */
  lemma ResolveBothForms(store: Store, i: int)
    requires WellFormedUsers(store) && 0 <= i < |store.users|
    ensures ResolveUser(store, store.users[i].id) == Some(store.users[i])
    ensures ResolveUser(store, store.users[i].username) == Some(store.users[i])
  {
    var u := store.users[i];
    var byId := GetUserById(store, u.id);
    var j :| 0 <= j < |store.users| && store.users[j] == byId.value;
    assert store.users[j].id == store.users[i].id;
    assert GetUserById(store, u.username).None?;
    var byName := GetUserByUsername(store, u.username);
    var m :| 0 <= m < |store.users| && store.users[m] == byName.value;
    assert store.users[m].username == store.users[i].username;
  }

  /** The same report is built whether the caller names the user by identity or by username. */
  lemma ReportSameForBothForms(store: Store, i: int, start: Date, end: Date)
    requires WellFormedUsers(store) && 0 <= i < |store.users|
    requires NotAfter(start, end)
    ensures BuildReport(store, store.users[i].id, start, end).Ok?
    ensures BuildReport(store, store.users[i].id, start, end) == BuildReport(store, store.users[i].username, start, end)
  {
    ResolveBothForms(store, i);
  }

  /** Yet the two forms are cached apart: when they differ, so do the keys, and invalidating
      by identity leaves the report cached under the username. */
  lemma BothFormsCachedApart(u: UserDoc, start: Date, end: Date)
    requires u.id != u.username
    requires ':' !in u.id && ':' !in u.username
    ensures ReportKey(u.id, start, end) != ReportKey(u.username, start, end)
    ensures StartsWith(ReportKey(u.id, start, end), InvalidationPrefix(u.id))
    ensures !StartsWith(ReportKey(u.username, start, end), InvalidationPrefix(u.id))
  {
    PrefixSeparatesUsers(u.id, u.username, IsoFormat(start), IsoFormat(end));
  }

  /** Distinct requests have distinct keys. */
  lemma ReportKeyInjective(u: string, s: Date, e: Date, u': string, s': Date, e': Date)
    requires ReportKey(u, s, e) == ReportKey(u', s', e')
    ensures u == u' && s == s' && e == e'
  {
    ReportCacheKeyInjective(u, IsoFormat(s), IsoFormat(e), u', IsoFormat(s'), IsoFormat(e'));
    IsoFormatInjective(s, s');
    IsoFormatInjective(e, e');
  }

  class ReportService {
    const store: Store
    const cache: CacheService<Report>

    constructor (store: Store, cache: CacheService<Report>)
      ensures this.store == store && this.cache == cache
    {
      this.store := store;
      this.cache := cache;
    }

    /** `generate_report`: with `useCache`, a cached report is returned marked as from the cache;
        otherwise the report is built, marked as fresh and, with `useCache`, written back with
        the default time-to-live. */
    method GenerateReport(userId: string, start: Date, end: Date, useCache: bool) returns (r: Result<Report, ReportError>)
      requires NotAfter(start, end)
      modifies cache`entries
      ensures var key := ReportKey(userId, start, end);
        var hit := useCache && old(cache.Live()) && key in old(cache.entries);
        var stored := !hit && useCache && r.Ok? && cache.Live() && cache.defaultTtl > 0;
        && (hit ==> r == Ok(old(cache.entries)[key].value.(fromCache := true)))
        && (!hit ==> r == BuildReport(store, userId, start, end))
        && (stored ==> cache.entries == old(cache.entries)[key := Entry(r.value, cache.defaultTtl)])
        && (!stored ==> cache.entries == old(cache.entries))
    {
      var key := ReportKey(userId, start, end);
      if useCache {
        var cached := cache.Get(key);
        if cached.Some? {
          return Ok(cached.value.(fromCache := true));
        }
      }
      r := BuildReport(store, userId, start, end);
      if r.Err? {
        return;
      }
      r := Ok(r.value.(fromCache := false));
      if useCache {
        var _ := cache.Set(key, r.value, None);
      }
    }

    /** `invalidate_user_cache`: drops every cached report keyed by `userId`. */
    method InvalidateUserCache(userId: string) returns (n: nat)
      modifies cache`entries
      ensures cache.Live() ==> n == |MatchingKeys(old(cache.entries), InvalidationPrefix(userId))|
      ensures cache.Live() ==> cache.entries == old(cache.entries) - MatchingKeys(old(cache.entries), InvalidationPrefix(userId))
      ensures !cache.Live() ==> n == 0 && cache.entries == old(cache.entries)
    {
      n := cache.InvalidateUserReports(userId);
    }

    /** Asking twice with a working cache: the second answer is the first one, served from the cache. */
    method RepeatReport(userId: string, start: Date, end: Date) returns (first: Result<Report, ReportError>, second: Result<Report, ReportError>)
      requires NotAfter(start, end)
      requires cache.Live() && cache.defaultTtl > 0
      modifies cache`entries
      ensures first.Ok? ==> second == Ok(first.value.(fromCache := true))
      ensures first.Err? ==> second == first
    {
      first := GenerateReport(userId, start, end, true);
      second := GenerateReport(userId, start, end, true);
    }

    /** After invalidation by the same identifier, the next report is built from the store again. */
    method ReportAfterInvalidation(userId: string, start: Date, end: Date) returns (r: Result<Report, ReportError>)
      requires NotAfter(start, end)
      requires cache.Live()
      modifies cache`entries
      ensures r == BuildReport(store, userId, start, end)
    {
      var _ := InvalidateUserCache(userId);
      r := GenerateReport(userId, start, end, true);
    }
  }
}
