/** `calculateDailyGoals` (src/lib/workout-generator.ts): the daily calorie
    and protein targets derived from a profile. Arithmetic is over exact reals. */
module DailyGoals {
  import opened Types
  import opened JsMath

  /** The two daily targets, in kcal and grams. */
  datatype Targets = Targets(calorieGoal: int, proteinGoal: int)

  /** Mifflin–St Jeor resting energy (the variant without a sex term) times
      the fixed light-activity factor 1.2: the maintenance intake. */
  function MaintenanceEnergy(p: Profile): real
  {
    (10.0 * p.weight + 6.25 * p.height - 5.0 * p.age as real + 5.0) * 1.2
  }

  /** The offset each goal adds to the maintenance intake, in kcal. */
  function CalorieOffset(goal: Goal): int
  {
    match goal
    case Emagrecer => -500
    case GanharMassa => 300
    case Manter => 0
  }

  /** Grams of protein per kilogram of body weight for each goal. */
  function ProteinFactor(goal: Goal): (factor: real)
    ensures factor == 1.8 || factor == 2.2
  {
    if goal == GanharMassa then 2.2 else 1.8
  }

  /** `calculateDailyGoals`: the maintenance intake moved by the goal's
      offset, and the goal's protein factor times the weight, both rounded. */
  function CalculateDailyGoals(p: Profile): (t: Targets)
    ensures t.calorieGoal == Round(MaintenanceEnergy(p)) + CalorieOffset(p.goal)
    ensures t.proteinGoal == Round(p.weight * ProteinFactor(p.goal))
  {
    var tmb :=
      if p.goal == Emagrecer then
        (10.0 * p.weight + 6.25 * p.height - 5.0 * p.age as real + 5.0) * 1.2 - 500.0
      else if p.goal == GanharMassa then
        (10.0 * p.weight + 6.25 * p.height - 5.0 * p.age as real + 5.0) * 1.2 + 300.0
      else
        (10.0 * p.weight + 6.25 * p.height - 5.0 * p.age as real + 5.0) * 1.2;
    var proteinGoal := p.weight * (if p.goal == GanharMassa then 2.2 else 1.8);
    RoundShift(MaintenanceEnergy(p), CalorieOffset(p.goal));
    Targets(Round(tmb), Round(proteinGoal))
  }

  /** For one body (same weight, height and age), losing fat targets exactly
      500 kcal below maintenance and gaining muscle exactly 300 kcal above,
      after rounding; so the three calorie targets are strictly ordered. */
  lemma CalorieGoalsByGoal(p: Profile)
    ensures var lose, keep, gain := CalculateDailyGoals(p.(goal := Emagrecer)),
                                     CalculateDailyGoals(p.(goal := Manter)),
                                     CalculateDailyGoals(p.(goal := GanharMassa));
      && lose.calorieGoal == keep.calorieGoal - 500
      && gain.calorieGoal == keep.calorieGoal + 300
      && lose.calorieGoal < keep.calorieGoal < gain.calorieGoal
  {
  }

  /** At a non-negative weight, the muscle-gain protein target is at least
      that of either other goal, and the other two goals agree. */
  lemma ProteinGoalsByGoal(p: Profile)
    requires 0.0 <= p.weight
    ensures var lose, keep, gain := CalculateDailyGoals(p.(goal := Emagrecer)),
                                     CalculateDailyGoals(p.(goal := Manter)),
                                     CalculateDailyGoals(p.(goal := GanharMassa));
      && lose.proteinGoal == keep.proteinGoal <= gain.proteinGoal
  {
    RoundMonotone(p.weight * 1.8, p.weight * 2.2);
  }

  /** Heavier or taller means a calorie target at least as high, older a
      target at most as high, all else equal. */
  lemma CalorieGoalMonotone(p: Profile, q: Profile)
    requires p.goal == q.goal
    requires p.weight <= q.weight && p.height <= q.height && q.age <= p.age
    ensures CalculateDailyGoals(p).calorieGoal <= CalculateDailyGoals(q).calorieGoal
  {
    RoundMonotone(MaintenanceEnergy(p), MaintenanceEnergy(q));
  }

  /** A worked example: 70 kg, 175 cm, 30 years, maintenance. The resting
      energy is 1648.75 kcal, times 1.2 is 1978.5, which rounds up to 1979;
      the protein target is 70 * 1.8 = 126 g. */
  lemma MaintenanceExample(p: Profile)
    requires p.weight == 70.0 && p.height == 175.0 && p.age == 30 && p.goal == Manter
    ensures CalculateDailyGoals(p) == Targets(1979, 126)
  {
    RoundUnique(1978.5, 1979);
    RoundUnique(126.0, 126);
  }
}
