/** The writer and the reader of the workouts table
    (src/lib/workout-generator.ts): `generateWeeklyWorkout` upserts one row
    per training day of the current epoch week, and `getTodaysWorkout` looks
    up the row of today's key. The table is a map from key to row held by a
    class; the clock, the weekday and the outcome of each database call are
    parameters. */
module WorkoutStore {
  import opened Wrappers
  import opened Types
  import opened WorkoutPlan

  /** The outcome of the catalog query: rows (possibly `null`), or an error. */
  datatype CatalogQuery = Loaded(data: Option<seq<CatalogEntry>>) | Failed

  /** `availableExercises || []`: a `null` result reads as an empty catalog. */
  function Available(data: Option<seq<CatalogEntry>>): seq<CatalogEntry>
  {
    match data
    case Some(rows) => rows
    case None => []
  }

  /** The row generated for one day. */
  function PlanRow(userId: string, week: int, day: int, p: Profile, catalog: seq<CatalogEntry>): (row: WorkoutRow)
    ensures row.Key() == WorkoutKey(userId, week, day)
  {
    WorkoutRow(userId, week, day, WorkoutName(day, p.goal), PlanDay(catalog, day, p.goal, p.level))
  }

  /** Every row sits under its own key. */
  ghost predicate KeysMatch(rows: map<WorkoutKey, WorkoutRow>)
  {
    forall k :: k in rows ==> rows[k].Key() == k
  }

  /** The table after upserting the rows of `days` in order; the store
      refuses the write of a day in `rejected`, which leaves that key as it
      was (the source does not inspect the upsert's outcome). */
  function UpsertDays(rows: map<WorkoutKey, WorkoutRow>, userId: string, week: int, days: seq<int>,
                      p: Profile, catalog: seq<CatalogEntry>, rejected: set<int>): map<WorkoutKey, WorkoutRow>
  {
    if days == [] then rows
    else
      var before := UpsertDays(rows, userId, week, days[..|days| - 1], p, catalog, rejected);
      var day := days[|days| - 1];
      if day in rejected then before
      else before[WorkoutKey(userId, week, day) := PlanRow(userId, week, day, p, catalog)]
  }

  /** The table after one run of the generator at time `now`. */
  function Generated(rows: map<WorkoutKey, WorkoutRow>, userId: string, p: Profile, query: CatalogQuery,
                     now: int, rejected: set<int>): map<WorkoutKey, WorkoutRow>
  {
    match query
    case Failed => rows
    case Loaded(data) =>
      UpsertDays(rows, userId, WeekOf(now), WorkoutDays(p.frequency), p, Available(data), rejected)
  }

  /** One more day of upserts. */
  lemma UpsertDaysStep(rows: map<WorkoutKey, WorkoutRow>, userId: string, week: int, days: seq<int>, i: nat,
                       p: Profile, catalog: seq<CatalogEntry>, rejected: set<int>)
    requires i < |days|
    ensures UpsertDays(rows, userId, week, days[..i + 1], p, catalog, rejected)
         == var before := UpsertDays(rows, userId, week, days[..i], p, catalog, rejected);
            if days[i] in rejected then before
            else before[WorkoutKey(userId, week, days[i]) := PlanRow(userId, week, days[i], p, catalog)]
  {
    assert days[..i + 1][..i] == days[..i];
  }

  /** A listed day that the store accepts holds its planned row. */
  lemma {:induction false} UpsertDaysWrites(rows: map<WorkoutKey, WorkoutRow>, userId: string, week: int,
                                            days: seq<int>, p: Profile, catalog: seq<CatalogEntry>,
                                            rejected: set<int>, day: int)
    requires day in days && day !in rejected
    ensures var after := UpsertDays(rows, userId, week, days, p, catalog, rejected);
      WorkoutKey(userId, week, day) in after
      && after[WorkoutKey(userId, week, day)] == PlanRow(userId, week, day, p, catalog)
  {
    var n := |days| - 1;
    if days[n] != day {
      assert day in days[..n] by {
        var i :| 0 <= i < |days| && days[i] == day;
        assert days[..n][i] == day;
      }
      UpsertDaysWrites(rows, userId, week, days[..n], p, catalog, rejected, day);
    }
  }

  /** Every other key keeps what it held before, present or absent. */
  lemma {:induction false} UpsertDaysKeeps(rows: map<WorkoutKey, WorkoutRow>, userId: string, week: int,
                                           days: seq<int>, p: Profile, catalog: seq<CatalogEntry>,
                                           rejected: set<int>, k: WorkoutKey)
    requires !(k.userId == userId && k.week == week && k.day in days && k.day !in rejected)
    ensures var after := UpsertDays(rows, userId, week, days, p, catalog, rejected);
      (k in after <==> k in rows) && (k in rows ==> after[k] == rows[k])
  {
    if days != [] {
      var n := |days| - 1;
      assert k.day in days[..n] ==> k.day in days;
      UpsertDaysKeeps(rows, userId, week, days[..n], p, catalog, rejected, k);
    }
  }

  /** What one key holds after the upserts: the planned row for a day of
      this user and week that was listed and not refused, otherwise exactly
      what it held before (present or absent). */
  lemma UpsertDaysAt(rows: map<WorkoutKey, WorkoutRow>, userId: string, week: int,
                     days: seq<int>, p: Profile, catalog: seq<CatalogEntry>,
                     rejected: set<int>, k: WorkoutKey)
    ensures var after := UpsertDays(rows, userId, week, days, p, catalog, rejected);
      if k.userId == userId && k.week == week && k.day in days && k.day !in rejected
      then k in after && after[k] == PlanRow(userId, week, k.day, p, catalog)
      else (k in after <==> k in rows) && (k in rows ==> after[k] == rows[k])
  {
    if k.userId == userId && k.week == week && k.day in days && k.day !in rejected {
      UpsertDaysWrites(rows, userId, week, days, p, catalog, rejected, k.day);
    } else {
      UpsertDaysKeeps(rows, userId, week, days, p, catalog, rejected, k);
    }
  }

  /** The generator writes the planned row under (user, current week, day)
      for every training day whose write the store accepts, and leaves every
      other key as it was; a failed catalog query writes nothing. */
  lemma GeneratedAt(rows: map<WorkoutKey, WorkoutRow>, userId: string, p: Profile, query: CatalogQuery,
                    now: int, rejected: set<int>, k: WorkoutKey)
    ensures var after := Generated(rows, userId, p, query, now, rejected);
      if query.Loaded? && k.userId == userId && k.week == WeekOf(now)
         && k.day in WorkoutDays(p.frequency) && k.day !in rejected
      then k in after && after[k] == PlanRow(userId, WeekOf(now), k.day, p, Available(query.data))
      else (k in after <==> k in rows) && (k in rows ==> after[k] == rows[k])
  {
    if query.Loaded? {
      UpsertDaysAt(rows, userId, WeekOf(now), WorkoutDays(p.frequency), p, Available(query.data), rejected, k);
    }
  }

  /** Running the generator again later in the same epoch week (the
      workout page runs it on every visit) with the same profile, catalog
      answer and refusals leaves the table as the first run left it: an
      upsert overwrites, never duplicates. */
  lemma GenerateIdempotent(rows: map<WorkoutKey, WorkoutRow>, userId: string, p: Profile, query: CatalogQuery,
                           now: int, now2: int, rejected: set<int>)
    requires WeekOf(now2) == WeekOf(now)
    ensures var once := Generated(rows, userId, p, query, now, rejected);
      Generated(once, userId, p, query, now2, rejected) == once
  {
    var once := Generated(rows, userId, p, query, now, rejected);
    var twice := Generated(once, userId, p, query, now2, rejected);
    forall k | k in once || k in twice
      ensures k in once && k in twice && twice[k] == once[k]
    {
      GeneratedAt(rows, userId, p, query, now, rejected, k);
      GeneratedAt(once, userId, p, query, now2, rejected, k);
    }
    assert twice.Keys == once.Keys;
  }

  /** The generator keeps every row under its own key. */
  lemma GeneratedKeysMatch(rows: map<WorkoutKey, WorkoutRow>, userId: string, p: Profile, query: CatalogQuery,
                           now: int, rejected: set<int>)
    requires KeysMatch(rows)
    ensures KeysMatch(Generated(rows, userId, p, query, now, rejected))
  {
    var after := Generated(rows, userId, p, query, now, rejected);
    forall k | k in after ensures after[k].Key() == k {
      GeneratedAt(rows, userId, p, query, now, rejected, k);
    }
  }

  /** The key the reader looks up at time `now` on clock weekday `weekday`. */
  function TodayKey(userId: string, now: int, weekday: int): WorkoutKey
    requires 0 <= weekday <= 6
  {
    WorkoutKey(userId, WeekOf(now), TodayNumber(weekday))
  }

  /** The workouts table of the database. */
  class Store {
    var rows: map<WorkoutKey, WorkoutRow>

    ghost predicate Valid()
      reads this
    {
      KeysMatch(rows)
    }

    constructor ()
      ensures Valid() && rows == map[]
    {
      rows := map[];
    }

    /** `generateWeeklyWorkout(userId, profile)` at time `now`. The catalog
        query is already answered; `rejected` holds the days whose upsert
        the store refuses. */
    method GenerateWeeklyWorkout(userId: string, p: Profile, query: CatalogQuery, now: int, rejected: set<int>)
      requires Valid()
      modifies this
      ensures Valid()
      ensures rows == Generated(old(rows), userId, p, query, now, rejected)
    {
      GeneratedKeysMatch(rows, userId, p, query, now, rejected);
      if query.Failed? {
        return;
      }
      var catalog := Available(query.data);
      var week := WeekOf(now);
      var days := WorkoutDays(p.frequency);
      var i := 0;
      while i < |days|
        invariant 0 <= i <= |days|
        invariant rows == UpsertDays(old(rows), userId, week, days[..i], p, catalog, rejected)
      {
        var day := days[i];
        UpsertDaysStep(old(rows), userId, week, days, i, p, catalog, rejected);
        if day !in rejected {
          rows := rows[WorkoutKey(userId, week, day) := PlanRow(userId, week, day, p, catalog)];
        }
        i := i + 1;
      }
      assert days[..i] == days;
    }

    /** `getTodaysWorkout(userId)` at time `now` on clock weekday `weekday`
        (0 = Sunday). `readFails` stands for a database error other than
        "no row", which the source logs and turns into `null`. */
    function TodaysWorkout(userId: string, now: int, weekday: int, readFails: bool): (w: Option<Workout>)
      reads this
      requires Valid()
      requires 0 <= weekday <= 6
      ensures w.Some? <==> !readFails && TodayKey(userId, now, weekday) in rows
      ensures w.Some? ==> w.value.userId == userId && w.value.week == WeekOf(now)
                          && w.value.day == TodayNumber(weekday)
                          && w.value.exercises == rows[TodayKey(userId, now, weekday)].exercises
    {
      var key := TodayKey(userId, now, weekday);
      if readFails || key !in rows then None else Some(rows[key].AsWorkout())
    }
  }

  /** What the generator writes, the reader finds: after a successful run,
      a read later in the same epoch week, on a training day whose write was
      accepted, returns that day's planned exercises. */
  lemma GenerateThenRead(s: Store, before: map<WorkoutKey, WorkoutRow>, userId: string, p: Profile,
                         data: Option<seq<CatalogEntry>>, genTime: int, rejected: set<int>,
                         readTime: int, weekday: int)
    requires s.Valid()
    requires s.rows == Generated(before, userId, p, Loaded(data), genTime, rejected)
    requires 0 <= weekday <= 6 && WeekOf(readTime) == WeekOf(genTime)
    requires TodayNumber(weekday) in WorkoutDays(p.frequency) && TodayNumber(weekday) !in rejected
    ensures s.TodaysWorkout(userId, readTime, weekday, false)
         == Some(Workout(userId, WeekOf(genTime), TodayNumber(weekday),
                         PlanDay(Available(data), TodayNumber(weekday), p.goal, p.level)))
  {
    GeneratedAt(before, userId, p, Loaded(data), genTime, rejected, TodayKey(userId, readTime, weekday));
  }

  /** Sunday is never a training day, so the Sunday read of a freshly
      generated week returns whatever the table held before for that key. */
  lemma SundayUntouched(before: map<WorkoutKey, WorkoutRow>, userId: string, p: Profile, query: CatalogQuery,
                        now: int, rejected: set<int>)
    ensures var after := Generated(before, userId, p, query, now, rejected);
      var k := TodayKey(userId, now, 0);
      (k in after <==> k in before) && (k in before ==> after[k] == before[k])
  {
    GeneratedAt(before, userId, p, query, now, rejected, TodayKey(userId, now, 0));
  }
}
