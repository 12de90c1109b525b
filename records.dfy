/** The records the report reads and the record store that serves them: an in-memory
    stand-in for the document database, holding users and three record collections and
    answering the lookups and date-window queries the report service makes. */
module Records {
  import opened Wrappers
  import opened Text
  import opened Dates
  import opened Folds

  /** A user's optional fitness goals. */
  datatype Goals = Goals(targetWeight: Option<real>, weeklyWorkoutMinutes: Option<int>)

  datatype UserDoc = UserDoc(
    id: string,
    username: string,
    email: string,
    fullName: Option<string>,
    goals: Goals)

  /** A workout as stored; `userId` holds the owner's username, `kind` the free-form type. */
  datatype Workout = Workout(
    userId: string,
    kind: string,
    durationMinutes: int,
    intensity: string,
    date: Date,
    notes: Option<string>)

  datatype Macros = Macros(protein: real, carbs: real, fat: real)

  /** A meal as stored; its time is a naive datetime. */
  datatype Meal = Meal(
    userId: string,
    name: string,
    calories: int,
    macros: Macros,
    time: NaiveDateTime,
    notes: Option<string>)

  datatype WeightLog = WeightLog(userId: string, weightKg: real, date: Date)

  /** The store's contents, each collection in natural (insertion) order. */
  datatype Store = Store(
    users: seq<UserDoc>,
    workouts: seq<Workout>,
    meals: seq<Meal>,
    weightLogs: seq<WeightLog>)

  /** `get_user_by_id`: the user whose identity is `id`. */
  function GetUserById(store: Store, id: string): (r: Option<UserDoc>)
    ensures r.Some? <==> exists i :: 0 <= i < |store.users| && store.users[i].id == id
    ensures r.Some? ==> r.value in store.users && r.value.id == id
  {
    FindFirst(store.users, (u: UserDoc) => u.id == id)
  }

  /** `get_user_by_username`: the user whose (stored, lower-case) username is `name` lowered. */
  function GetUserByUsername(store: Store, name: string): (r: Option<UserDoc>)
    ensures r.Some? <==> exists i :: 0 <= i < |store.users| && store.users[i].username == Lower(name)
    ensures r.Some? ==> r.value in store.users && r.value.username == Lower(name)
  {
    FindFirst(store.users, (u: UserDoc) => u.username == Lower(name))
  }

  /** A date lies in the inclusive window: the store queries from `start` at midnight up
      to `end` at its last microsecond. */
  predicate InWindow(d: Date, start: Date, end: Date) {
    NotAfter(start, d) && NotAfter(d, end)
  }

  /** The store query filters: owned by `userId` and dated inside the window. */
  function WorkoutOf(userId: string, start: Date, end: Date): Workout -> bool {
    (w: Workout) => w.userId == userId && InWindow(w.date, start, end)
  }

  function MealOf(userId: string, start: Date, end: Date): Meal -> bool {
    (m: Meal) => m.userId == userId && InWindow(m.time.date, start, end)
  }

  function WeightLogOf(userId: string, start: Date, end: Date): WeightLog -> bool {
    (l: WeightLog) => l.userId == userId && InWindow(l.date, start, end)
  }

  /** `get_workouts(user_id, start, end)`: the owner's workouts dated inside the window. */
  function GetWorkouts(store: Store, userId: string, start: Date, end: Date): (r: seq<Workout>)
    ensures forall i :: 0 <= i < |r| ==> r[i] in store.workouts && r[i].userId == userId && InWindow(r[i].date, start, end)
    ensures forall w :: w in store.workouts && w.userId == userId && InWindow(w.date, start, end) ==> w in r
  {
    Filter(store.workouts, WorkoutOf(userId, start, end))
  }

  /** `get_meals(user_id, start, end)`: the owner's meals eaten on a day inside the window. */
  function GetMeals(store: Store, userId: string, start: Date, end: Date): (r: seq<Meal>)
    ensures forall i :: 0 <= i < |r| ==> r[i] in store.meals && r[i].userId == userId && InWindow(r[i].time.date, start, end)
    ensures forall m :: m in store.meals && m.userId == userId && InWindow(m.time.date, start, end) ==> m in r
  {
    Filter(store.meals, MealOf(userId, start, end))
  }

  /** `get_weight_logs(user_id, start, end)`: the owner's weight logs dated inside the window. */
  function GetWeightLogs(store: Store, userId: string, start: Date, end: Date): (r: seq<WeightLog>)
    ensures forall i :: 0 <= i < |r| ==> r[i] in store.weightLogs && r[i].userId == userId && InWindow(r[i].date, start, end)
    ensures forall l :: l in store.weightLogs && l.userId == userId && InWindow(l.date, start, end) ==> l in r
  {
    Filter(store.weightLogs, WeightLogOf(userId, start, end))
  }
}
