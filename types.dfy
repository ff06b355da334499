/** The records the workout and nutrition code exchange with the database
    (src/lib/types.ts). Identifiers and URLs are opaque strings. */
module Types {
  import opened Wrappers

  /** The user's training objective. */
  datatype Goal = Emagrecer | GanharMassa | Manter

  /** The user's training experience. The record type names two levels;
      the profile form also stores `avancado`, which every table of the
      generator treats like any other non-beginner level. */
  datatype Level = Iniciante | Intermediario | Avancado

  /** Where the user trains: a gym or at home. */
  datatype WorkoutType = Academia | Casa

  /** The part of a user profile that the planning code reads. `age` and
      `frequency` come from integer form fields, weight and height are numbers.
      `workoutType` only feeds the catalog query's equipment filter, which
      is outside this model. */
  datatype Profile = Profile(
    age: int,
    weight: real,
    height: real,
    goal: Goal,
    level: Level,
    frequency: int,
    workoutType: WorkoutType)

  /** A row of the exercise catalog, as the catalog query returns it. */
  datatype CatalogEntry = CatalogEntry(
    id: string,
    name: string,
    description: string,
    muscles: seq<string>,
    videoUrl: Option<string>,
    imageUrl: Option<string>)

  /** An exercise as stored inside a generated workout: a snapshot of a
      catalog entry plus the goal- and level-dependent sets, reps and rest. */
  datatype Exercise = Exercise(
    id: string,
    name: string,
    sets: int,
    reps: string,
    rest: string,
    description: string,
    muscles: seq<string>,
    videoUrl: Option<string>,
    imageUrl: Option<string>)

  /** A workout as the reader hands it to the pages: the user, the epoch
      week, the weekday (1 = Monday .. 7 = Sunday) and the exercises. */
  datatype Workout = Workout(
    userId: string,
    week: int,
    day: int,
    exercises: seq<Exercise>)

  /** The key under which the workouts table keeps one row per user, week and day. */
  datatype WorkoutKey = WorkoutKey(userId: string, week: int, day: int)

  /** A row of the workouts table as the generator writes it; it also carries
      the display name, which the reader does not return. */
  datatype WorkoutRow = WorkoutRow(
    userId: string,
    week: int,
    day: int,
    name: string,
    exercises: seq<Exercise>)
  {
    function Key(): WorkoutKey { WorkoutKey(userId, week, day) }

    function AsWorkout(): Workout { Workout(userId, week, day, exercises) }
  }
}
