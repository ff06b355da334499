/** The pure helpers of the weekly workout generator
    (src/lib/workout-generator.ts): which weekdays are trained, which catalog
    exercises a day gets, the goal- and level-dependent sets, reps and rest,
    the workout's display name, and the epoch-week and weekday arithmetic
    shared by the writer and the reader. */
module WorkoutPlan {
  import opened Wrappers
  import opened Types
  import opened Sequences

  // ---------------------------------------------------------------------------
  // Day schedule
  // ---------------------------------------------------------------------------

  /** The fixed pool of training days: Monday, Wednesday, Friday. */
  const DayPool: seq<int> := [1, 3, 5]

  /** Where JavaScript's `slice(0, end)` stops on a list of length `len`:
      a negative `end` counts from the back, and the result is clamped to
      `0 .. len`. */
  function SliceEnd(len: nat, end: int): (n: nat)
    ensures n <= len
    ensures 0 <= end ==> n == if end < len then end else len
    ensures end < 0 ==> n == if len + end < 0 then 0 else len + end
  {
    if end < 0 then (if len + end < 0 then 0 else len + end)
    else if end < len then end
    else len
  }

  /** `getWorkoutDays`: a prefix of Monday, Wednesday, Friday of the length
      JavaScript's `slice(0, frequency)` gives. */
  function WorkoutDays(frequency: int): (days: seq<int>)
    ensures |days| <= 3 && days == DayPool[..|days|]
    ensures 0 <= frequency <= 3 ==> |days| == frequency
    ensures 3 <= frequency ==> days == [1, 3, 5]
    ensures frequency < 0 ==> |days| == if frequency < -3 then 0 else 3 + frequency
    ensures forall i, j :: 0 <= i < j < |days| ==> days[i] < days[j]
    ensures forall i :: 0 <= i < |days| ==> days[i] in {1, 3, 5}
  {
    DayPool[..SliceEnd(|DayPool|, frequency)]
  }

  // ---------------------------------------------------------------------------
  // Exercise selection
  // ---------------------------------------------------------------------------

  /** The muscle groups a weekday focuses on; a day outside the table falls
      back to chest and back. */
  function FocusGroup(day: int): (group: seq<string>)
    ensures |group| == 2
  {
    if day == 1 then ["peito", "tríceps"]
    else if day == 3 then ["costas", "bíceps"]
    else if day == 5 then ["pernas", "ombros"]
    else ["peito", "costas"]
  }

  /** A catalog entry works at least one of the given muscles. */
  predicate SharesMuscle(e: CatalogEntry, group: seq<string>)
  {
    exists m :: m in e.muscles && m in group
  }

  /** The catalog entries that share a muscle with `group`, in catalog order. */
  function Matching(catalog: seq<CatalogEntry>, group: seq<string>): (r: seq<CatalogEntry>)
    ensures |r| <= |catalog|
    ensures forall e :: e in r ==> e in catalog && SharesMuscle(e, group)
    ensures forall e :: e in catalog && SharesMuscle(e, group) ==> e in r
  {
    if catalog == [] then []
    else if SharesMuscle(catalog[0], group) then [catalog[0]] + Matching(catalog[1..], group)
    else Matching(catalog[1..], group)
  }

  /** `selectExercisesForDay`: the first four catalog entries that share a
      muscle with the day's focus group. (The goal argument of the source is
      unused and so is not a parameter here.) */
  function SelectExercisesForDay(catalog: seq<CatalogEntry>, day: int): (r: seq<CatalogEntry>)
    ensures |r| <= 4
    ensures forall i :: 0 <= i < |r| ==> SharesMuscle(r[i], FocusGroup(day))
    ensures |r| == if |Matching(catalog, FocusGroup(day))| < 4 then |Matching(catalog, FocusGroup(day))| else 4
    ensures r == Matching(catalog, FocusGroup(day))[..|r|]
  {
    var m := Matching(catalog, FocusGroup(day));
    if |m| <= 4 then m else m[..4]
  }

  /** The filtered catalog keeps the catalog's order. */
  lemma {:induction false} MatchingIsSubsequence(catalog: seq<CatalogEntry>, group: seq<string>)
    ensures IsSubsequence(Matching(catalog, group), catalog)
  {
    if catalog != [] {
      MatchingIsSubsequence(catalog[1..], group);
      var rest := Matching(catalog[1..], group);
      if SharesMuscle(catalog[0], group) {
        assert Matching(catalog, group) == [catalog[0]] + rest;
        assert ([catalog[0]] + rest)[1..] == rest;
      } else if rest != [] {
        assert Matching(catalog, group) == rest;
      }
    }
  }

  /** The day's selection is a subsequence of the catalog: entries keep their
      catalog order and none is repeated beyond how often the catalog has it. */
  lemma SelectionIsSubsequence(catalog: seq<CatalogEntry>, day: int)
    ensures IsSubsequence(SelectExercisesForDay(catalog, day), catalog)
  {
    var m := Matching(catalog, FocusGroup(day));
    MatchingIsSubsequence(catalog, FocusGroup(day));
    PrefixIsSubsequence(m, catalog, |SelectExercisesForDay(catalog, day)|);
  }

  // ---------------------------------------------------------------------------
  // Sets, reps and rest
  // ---------------------------------------------------------------------------

  /** `getSetsForGoal`. */
  function SetsForGoal(goal: Goal, level: Level): (sets: int)
    ensures sets == 3 || sets == 4
    ensures sets == 3 <==> level == Iniciante || goal == Manter
  {
    match goal
    case GanharMassa => if level == Iniciante then 3 else 4
    case Emagrecer => if level == Iniciante then 3 else 4
    case Manter => 3
  }

  /** The numeric repetition range behind each reps label: (low, high). */
  function RepRange(goal: Goal, level: Level): (range: (int, int))
    ensures 0 < range.0 < range.1 < 100
  {
    match goal
    case GanharMassa => if level == Iniciante then (8, 12) else (6, 10)
    case Emagrecer => if level == Iniciante then (12, 15) else (10, 12)
    case Manter => (10, 12)
  }

  /** The decimal spelling of a number below 100. */
  function Decimal(n: int): (s: string)
    requires 0 <= n < 100
    ensures |s| == if n < 10 then 1 else 2
    ensures forall i :: 0 <= i < |s| ==> '0' <= s[i] <= '9'
  {
    var digit := (d: int) requires 0 <= d < 10 => (('0' as int) + d) as char;
    if n < 10 then [digit(n)] else [digit(n / 10), digit(n % 10)]
  }

  /** A repetition range spelt `low-high`. */
  function RangeLabel(range: (int, int)): string
    requires 0 <= range.0 < 100 && 0 <= range.1 < 100
  {
    Decimal(range.0) + "-" + Decimal(range.1)
  }

  /** `getRepsForGoal`: the label spells the goal's repetition range. */
  function RepsForGoal(goal: Goal, level: Level): (reps: string)
    ensures reps == RangeLabel(RepRange(goal, level))
  {
    match goal
    case GanharMassa => if level == Iniciante then "8-12" else "6-10"
    case Emagrecer => if level == Iniciante then "12-15" else "10-12"
    case Manter => "10-12"
  }

  /** The rest interval behind each rest label, in seconds. */
  function RestSeconds(goal: Goal): (seconds: int)
    ensures 0 < seconds < 100
  {
    match goal
    case GanharMassa => 90
    case Emagrecer => 60
    case Manter => 75
  }

  /** `getRestForGoal`: the label spells the goal's rest in seconds. The level
      plays no part. */
  function RestForGoal(goal: Goal): (rest: string)
    ensures rest == Decimal(RestSeconds(goal)) + "s"
  {
    match goal
    case GanharMassa => "90s"
    case Emagrecer => "60s"
    case Manter => "75s"
  }

  /** The tables order the goals as a training design would: muscle gain
      trains heaviest (fewest reps, longest rest), fat loss lightest (most
      reps, shortest rest), maintenance in between; at a given goal a
      beginner never does fewer reps, at either end of the range, nor more
      sets than any other level. */
  lemma ParameterOrdering(level: Level)
    ensures RepRange(GanharMassa, level).0 < RepRange(Manter, level).0 <= RepRange(Emagrecer, level).0
    ensures RepRange(GanharMassa, level).1 <= RepRange(Manter, level).1 <= RepRange(Emagrecer, level).1
    ensures RestSeconds(Emagrecer) < RestSeconds(Manter) < RestSeconds(GanharMassa)
    ensures forall g :: RepRange(g, level).0 <= RepRange(g, Iniciante).0
    ensures forall g :: RepRange(g, level).1 <= RepRange(g, Iniciante).1
    ensures forall g :: SetsForGoal(g, Iniciante) <= SetsForGoal(g, level)
  {
  }

  // ---------------------------------------------------------------------------
  // Workout name
  // ---------------------------------------------------------------------------

  function GoalName(goal: Goal): string
  {
    match goal
    case Emagrecer => "Queima de Gordura"
    case GanharMassa => "Ganho de Massa"
    case Manter => "Manutenção"
  }

  /** The weekday names the generator knows; other days have none. */
  function DayName(day: int): Option<string>
  {
    if day == 1 then Some("Segunda-feira")
    else if day == 3 then Some("Quarta-feira")
    else if day == 5 then Some("Sexta-feira")
    else None
  }

  /** `getWorkoutName`: `<goal name> - <day name>`; a day without a name
      prints as JavaScript's `undefined`. */
  function WorkoutName(day: int, goal: Goal): (name: string)
    ensures |GoalName(goal)| < |name| && name[..|GoalName(goal)|] == GoalName(goal)
    ensures DayName(day).Some? ==> name == GoalName(goal) + " - " + DayName(day).value
    ensures DayName(day).None? ==> name == GoalName(goal) + " - undefined"
  {
    GoalName(goal) + " - " + (match DayName(day) case Some(n) => n case None => "undefined")
  }

  /** On the scheduled days the name tells the goal and the day apart. */
  lemma WorkoutNameInjective(d1: int, g1: Goal, d2: int, g2: Goal)
    requires d1 in {1, 3, 5} && d2 in {1, 3, 5}
    requires WorkoutName(d1, g1) == WorkoutName(d2, g2)
    ensures d1 == d2 && g1 == g2
  {
    var n := WorkoutName(d1, g1);
    // The goal names start with different letters ...
    assert n[0] == GoalName(g1)[0] && n[0] == GoalName(g2)[0];
    // ... and the day names have different lengths.
    assert |n| == |GoalName(g1)| + 3 + |DayName(d1).value| == |GoalName(g2)| + 3 + |DayName(d2).value|;
  }

  // ---------------------------------------------------------------------------
  // Planned exercises
  // ---------------------------------------------------------------------------

  /** One catalog entry as it is stored in a generated workout. */
  function PlanExercise(e: CatalogEntry, goal: Goal, level: Level): Exercise
  {
    Exercise(e.id, e.name, SetsForGoal(goal, level), RepsForGoal(goal, level),
             RestForGoal(goal), e.description, e.muscles, e.videoUrl, e.imageUrl)
  }

  /** The exercises of one generated day. */
  function PlanDay(catalog: seq<CatalogEntry>, day: int, goal: Goal, level: Level): (plan: seq<Exercise>)
    ensures |plan| == |SelectExercisesForDay(catalog, day)| <= 4
  {
    var chosen := SelectExercisesForDay(catalog, day);
    seq(|chosen|, i requires 0 <= i < |chosen| => PlanExercise(chosen[i], goal, level))
  }

  /** Every exercise of a generated day is its selected catalog entry with
      the id, name, description, muscles and media copied unchanged, in
      order, and all of them carry the same sets, reps and rest, which
      depend only on the goal and the level. */
  lemma PlanDayContents(catalog: seq<CatalogEntry>, day: int, goal: Goal, level: Level)
    ensures var chosen, plan := SelectExercisesForDay(catalog, day), PlanDay(catalog, day, goal, level);
      forall i :: 0 <= i < |plan| ==>
        && plan[i].id == chosen[i].id && plan[i].name == chosen[i].name
        && plan[i].description == chosen[i].description && plan[i].muscles == chosen[i].muscles
        && plan[i].videoUrl == chosen[i].videoUrl && plan[i].imageUrl == chosen[i].imageUrl
        && plan[i].sets == SetsForGoal(goal, level)
        && plan[i].reps == RepsForGoal(goal, level)
        && plan[i].rest == RestForGoal(goal)
        && SharesMuscle(chosen[i], FocusGroup(day))
  {
  }

  // ---------------------------------------------------------------------------
  // Week and weekday
  // ---------------------------------------------------------------------------

  /** Milliseconds in seven days. */
  const WeekMillis: int := 7 * 24 * 60 * 60 * 1000

  /** `Math.floor(now / WeekMillis)`: the epoch week a timestamp falls in. */
  function WeekOf(now: int): (week: int)
    ensures week * WeekMillis <= now < (week + 1) * WeekMillis
  {
    now / WeekMillis
  }

  /** Epoch weeks run Thursday to Thursday, since 1 January 1970 (day 0)
      was a Thursday. In every week `n`, days `7n + 4 .. 7n + 6` are the
      Monday to Wednesday of that calendar week, and day `7n + 8` is its
      Friday: a plan generated at any time on the first three is filed
      under week `n`, while a read at any time on the Friday looks up week
      `n + 1`. Week `n + 1` starts at Thursday (day `7n + 7`) 00:00 UTC. */
  lemma EpochWeeksStartThursday(n: int, d: int, t1: int, t2: int)
    requires 4 <= d <= 6 && 0 <= t1 < 86400000 && 0 <= t2 < 86400000
    ensures WeekOf((7 * n + d) * 86400000 + t1) == n
    ensures WeekOf((7 * n + 8) * 86400000 + t2) == n + 1
    ensures WeekOf((7 * n + 7) * 86400000 - 1) == n && WeekOf((7 * n + 7) * 86400000) == n + 1
  {
    SameWeek((7 * n + d) * 86400000 + t1, (7 * n + 7) * 86400000 - 1, n);
    SameWeek((7 * n + 8) * 86400000 + t2, (7 * n + 7) * 86400000, n + 1);
  }

  /** Timestamps in one seven-day bucket get that bucket's week. */
  lemma SameWeek(now1: int, now2: int, week: int)
    requires week * WeekMillis <= now1 < (week + 1) * WeekMillis
    requires week * WeekMillis <= now2 < (week + 1) * WeekMillis
    ensures WeekOf(now1) == week && WeekOf(now2) == week
  {
    var w1, w2 := WeekOf(now1), WeekOf(now2);
    assert (w1 - week) * WeekMillis < WeekMillis && (week - w1) * WeekMillis < WeekMillis;
    assert (w2 - week) * WeekMillis < WeekMillis && (week - w2) * WeekMillis < WeekMillis;
  }

  /** `getDay() || 7`: the clock's weekday (0 = Sunday .. 6 = Saturday) with
      Sunday moved to 7, so that weeks run Monday 1 .. Sunday 7. */
  function TodayNumber(weekday: int): (day: int)
    requires 0 <= weekday <= 6
    ensures 1 <= day <= 7
    ensures weekday == 0 ==> day == 7
    ensures weekday != 0 ==> day == weekday
  {
    if weekday == 0 then 7 else weekday
  }
}
