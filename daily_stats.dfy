/** The aggregation of `getDailyStats` (src/lib/meal-analyzer.ts): the
    day's logged meals folded into total kcal, total protein and a count. */
module DailyStats {
  import opened Wrappers

  /** The two columns the query selects from a logged meal. */
  datatype MealRow = MealRow(estimatedCalories: real, estimatedProtein: real)

  /** The outcome of the meals query: rows (possibly `null`), or an error. */
  datatype MealsQuery = MealsLoaded(data: Option<seq<MealRow>>) | MealsFailed

  datatype Stats = Stats(totalCalories: real, totalProtein: real, mealsLogged: nat)

  /** JavaScript's `reduce((sum, meal) => sum + f(meal), acc)`: a left fold. */
  function Reduce(meals: seq<MealRow>, f: MealRow -> real, acc: real): real
  {
    if meals == [] then acc else Reduce(meals[1..], f, acc + f(meals[0]))
  }

  /** The sum of `f` over the meals, the reference the fold is measured by. */
  function Sum(meals: seq<MealRow>, f: MealRow -> real): real
  {
    if meals == [] then 0.0 else Sum(meals[..|meals| - 1], f) + f(meals[|meals| - 1])
  }

  /** The left fold started at `acc` adds the sum to `acc`. */
  lemma {:induction false} ReduceIsSum(meals: seq<MealRow>, f: MealRow -> real, acc: real)
    ensures Reduce(meals, f, acc) == acc + Sum(meals, f)
  {
    if meals != [] {
      ReduceIsSum(meals[1..], f, acc + f(meals[0]));
      SumCons(meals, f);
    }
  }

  /** The sum peels off its first element as well as its last. */
  lemma {:induction false} SumCons(meals: seq<MealRow>, f: MealRow -> real)
    requires meals != []
    ensures Sum(meals, f) == f(meals[0]) + Sum(meals[1..], f)
  {
    var n := |meals| - 1;
    if n > 0 {
      SumCons(meals[..n], f);
      assert meals[..n][1..] == meals[1..][..n - 1];
      assert meals[..n][0] == meals[0];
    } else {
      assert meals[1..] == [];
    }
  }

  /** A sum of non-negative terms is non-negative. */
  lemma {:induction false} SumNonNegative(meals: seq<MealRow>, f: MealRow -> real)
    requires forall i :: 0 <= i < |meals| ==> 0.0 <= f(meals[i])
    ensures 0.0 <= Sum(meals, f)
  {
    if meals != [] {
      SumNonNegative(meals[..|meals| - 1], f);
    }
  }

  function Calories(m: MealRow): real { m.estimatedCalories }

  function Protein(m: MealRow): real { m.estimatedProtein }

  /** `getDailyStats` after the query: an error is thrown (here a failure);
      otherwise the totals are the folds `meals?.reduce(...) || 0` and the
      count is `meals?.length || 0`, where `null` rows read as no meals. */
  function GetDailyStats(query: MealsQuery): (r: Result<Stats>)
    ensures query.MealsFailed? <==> r.Failure?
    ensures r.Success? ==>
      var meals := match query.data case Some(ms) => ms case None => [];
      && r.value.totalCalories == Sum(meals, Calories)
      && r.value.totalProtein == Sum(meals, Protein)
      && r.value.mealsLogged == |meals|
  {
    match query
    case MealsFailed => Failure
    case MealsLoaded(data) =>
      match data
      case None => Success(Stats(0.0, 0.0, 0))
      case Some(meals) =>
        ReduceIsSum(meals, Calories, 0.0);
        ReduceIsSum(meals, Protein, 0.0);
        Success(Stats(Reduce(meals, Calories, 0.0), Reduce(meals, Protein, 0.0), |meals|))
  }

  /** Logging one more meal adds its kcal and protein to the totals and one
      to the count. */
  lemma OneMoreMeal(meals: seq<MealRow>, m: MealRow)
    ensures var before, after := GetDailyStats(MealsLoaded(Some(meals))), GetDailyStats(MealsLoaded(Some(meals + [m])));
      && after.value.totalCalories == before.value.totalCalories + m.estimatedCalories
      && after.value.totalProtein == before.value.totalProtein + m.estimatedProtein
      && after.value.mealsLogged == before.value.mealsLogged + 1
  {
    assert (meals + [m])[..|meals|] == meals;
  }

  /** A day without meals, or a `null` answer, gives zero totals and count. */
  lemma NoMeals()
    ensures GetDailyStats(MealsLoaded(None)) == Success(Stats(0.0, 0.0, 0))
    ensures GetDailyStats(MealsLoaded(Some([]))) == Success(Stats(0.0, 0.0, 0))
  {
  }

  /** Meals with non-negative estimates give non-negative totals. */
  lemma TotalsNonNegative(meals: seq<MealRow>)
    requires forall i :: 0 <= i < |meals| ==> 0.0 <= meals[i].estimatedCalories && 0.0 <= meals[i].estimatedProtein
    ensures var s := GetDailyStats(MealsLoaded(Some(meals))).value;
      0.0 <= s.totalCalories && 0.0 <= s.totalProtein
  {
    SumNonNegative(meals, Calories);
    SumNonNegative(meals, Protein);
  }
}
