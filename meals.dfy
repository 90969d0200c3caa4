/** The meals page: today's macro totals and today's meals grouped by
    meal type. */
module MealsPage {
  import opened Types
  import opened Lists
  import Js

  /** A row of the `meals` table; the macro columns may be null. */
  datatype Meal = Meal(
    id: string,
    mealType: string,
    mealName: string,
    calories: Option<int>,
    proteinG: Option<int>,
    carbsG: Option<int>,
    fatG: Option<int>)

  datatype Totals = Totals(calories: int, protein: int, carbs: int, fat: int) {
    function Plus(o: Totals): Totals {
      Totals(calories + o.calories, protein + o.protein, carbs + o.carbs, fat + o.fat)
    }
  }

  const Zero := Totals(0, 0, 0, 0)

  /** One meal's share of the totals: a null column counts as 0. */
  function Contribution(m: Meal): (t: Totals)
    ensures t.calories == m.calories.GetOr(0)
    ensures t.protein == m.proteinG.GetOr(0)
    ensures t.carbs == m.carbsG.GetOr(0)
    ensures t.fat == m.fatG.GetOr(0)
  {
    Totals(Js.Or(m.calories, 0), Js.Or(m.proteinG, 0), Js.Or(m.carbsG, 0), Js.Or(m.fatG, 0))
  }

  /** The `reduce` over today's meals, from the left, starting at zero. */
  function SumTotals(meals: seq<Meal>): Totals
    decreases |meals|
  {
    if meals == [] then Zero
    else SumTotals(meals[..|meals| - 1]).Plus(Contribution(meals[|meals| - 1]))
  }

  /** `todayMeals?.reduce(...)`: no result set gives no totals. */
  function TodayTotals(todayMeals: Option<seq<Meal>>): (r: Option<Totals>)
    ensures r.Some? <==> todayMeals.Some?
    ensures todayMeals == Some([]) ==> r == Some(Zero)
  {
    if todayMeals.Some? then Some(SumTotals(todayMeals.value)) else None
  }

  /** The totals of two runs of meals add up. */
  lemma {:induction false} SumTotalsAppend(a: seq<Meal>, b: seq<Meal>)
    ensures SumTotals(a + b) == SumTotals(a).Plus(SumTotals(b))
    decreases |b|
  {
    if b == [] {
      assert a + b == a;
    } else {
      var b' := b[..|b| - 1];
      assert (a + b)[..|a + b| - 1] == a + b';
      assert (a + b)[|a + b| - 1] == b[|b| - 1];
      SumTotalsAppend(a, b');
    }
  }

  /** Reference definition of one total: the sum of one column, null as 0. */
  function ColumnSum(meals: seq<Meal>, column: Meal -> Option<int>): int
    decreases |meals|
  {
    if meals == [] then 0 else column(meals[0]).GetOr(0) + ColumnSum(meals[1..], column)
  }

  function CaloriesOf(m: Meal): Option<int> { m.calories }
  function ProteinOf(m: Meal): Option<int> { m.proteinG }
  function CarbsOf(m: Meal): Option<int> { m.carbsG }
  function FatOf(m: Meal): Option<int> { m.fatG }

  /** Each daily total is the sum of its column over the meals. */
  lemma {:induction false} SumTotalsAreColumnSums(meals: seq<Meal>)
    ensures SumTotals(meals).calories == ColumnSum(meals, CaloriesOf)
    ensures SumTotals(meals).protein == ColumnSum(meals, ProteinOf)
    ensures SumTotals(meals).carbs == ColumnSum(meals, CarbsOf)
    ensures SumTotals(meals).fat == ColumnSum(meals, FatOf)
    decreases |meals|
  {
    if meals != [] {
      var rest := meals[1..];
      SumTotalsAreColumnSums(rest);
      assert meals == [meals[0]] + rest;
      SumTotalsAppend([meals[0]], rest);
      assert SumTotals([meals[0]]) == Zero.Plus(Contribution(meals[0])) by {
        assert [meals[0]][..0] == [];
      }
    }
  }

  /** The meal types the page lists, in order. */
  const MealTypes: seq<string> := ["breakfast", "lunch", "dinner", "snack"]

  function TypeIs(mealType: string): Meal -> bool {
    (m: Meal) => m.mealType == mealType
  }

  /** `todayMeals.filter((m) => m.meal_type === mealType)` for each listed type. */
  function Groups(todayMeals: seq<Meal>): (groups: seq<seq<Meal>>)
    ensures |groups| == |MealTypes|
    ensures forall i :: 0 <= i < |groups| ==> IsSubsequence(groups[i], todayMeals)
    ensures forall i, m :: 0 <= i < |groups| ==> (m in groups[i] <==> m in todayMeals && m.mealType == MealTypes[i])
  {
    forall i | 0 <= i < |MealTypes| ensures IsSubsequence(Filter(todayMeals, TypeIs(MealTypes[i])), todayMeals) {
      FilterIsSubsequence(todayMeals, TypeIs(MealTypes[i]));
    }
    seq(|MealTypes|, i requires 0 <= i < |MealTypes| => Filter(todayMeals, TypeIs(MealTypes[i])))
  }

  /** A meal of a listed type is shown under exactly that type, and a meal
      of any other type is not shown at all. */
  lemma GroupsPartition(todayMeals: seq<Meal>, m: Meal)
    requires m in todayMeals
    ensures m.mealType in MealTypes ==> exists i :: 0 <= i < |MealTypes| && m in Groups(todayMeals)[i]
    ensures forall i, j :: 0 <= i < j < |MealTypes| ==> !(m in Groups(todayMeals)[i] && m in Groups(todayMeals)[j])
    ensures m.mealType !in MealTypes ==> forall i :: 0 <= i < |MealTypes| ==> m !in Groups(todayMeals)[i]
  {
    var g := Groups(todayMeals);
    MealTypesDistinct();
    if m.mealType in MealTypes {
      var i :| 0 <= i < |MealTypes| && MealTypes[i] == m.mealType;
      assert m in g[i];
    }
  }

  /** The four listed types are different strings: they differ in their
      first letter. */
  lemma MealTypesDistinct()
    ensures forall i, j :: 0 <= i < j < |MealTypes| ==> MealTypes[i] != MealTypes[j]
  {
    forall i, j | 0 <= i < j < |MealTypes| ensures MealTypes[i] != MealTypes[j] {
      var a, b := MealTypes[i], MealTypes[j];
      assert a[0] != b[0] by {
        assert i == 0 || i == 1 || i == 2;
        assert MealTypes[0][0] == 'b' && MealTypes[1][0] == 'l' && MealTypes[2][0] == 'd' && MealTypes[3][0] == 's';
      }
    }
  }

  /** When every meal has a listed type, the four groups together hold
      every meal once. */
  lemma {:induction false} GroupsCoverAll(todayMeals: seq<Meal>)
    requires forall m :: m in todayMeals ==> m.mealType in MealTypes
    ensures |Filter(todayMeals, TypeIs("breakfast"))| + |Filter(todayMeals, TypeIs("lunch"))|
          + |Filter(todayMeals, TypeIs("dinner"))| + |Filter(todayMeals, TypeIs("snack"))| == |todayMeals|
    decreases |todayMeals|
  {
    if todayMeals != [] {
      var h, tail := todayMeals[0], todayMeals[1..];
      assert h in todayMeals;
      GroupsCoverAll(tail);
      CountStep(todayMeals, "breakfast");
      CountStep(todayMeals, "lunch");
      CountStep(todayMeals, "dinner");
      CountStep(todayMeals, "snack");
    }
  }

  lemma CountStep(meals: seq<Meal>, t: string)
    requires meals != []
    ensures |Filter(meals, TypeIs(t))| == |Filter(meals[1..], TypeIs(t))| + (if meals[0].mealType == t then 1 else 0)
  {
  }
}
