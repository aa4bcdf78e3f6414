/** The figures the daily tracker derives from a user's fetched entries: the
    calorie and protein totals, each total's progress against its daily
    target as a percentage capped at 100, and the over-target warning. */
module DailyTracker {
  import opened Schema

  /** The two nutrients the tracker adds up. */
  datatype Nutrient = Calories | Protein

  function Amount(e: FoodEntry, n: Nutrient): int {
    match n
    case Calories => e.calories
    case Protein => e.protein
  }

  /** `entries.reduce((sum, entry) => sum + entry.<n>, 0)`: a left fold from 0. */
  function Sum(entries: seq<FoodEntry>, n: Nutrient): (t: int)
    ensures (forall e :: e in entries ==> Amount(e, n) >= 0) ==> t >= 0
  {
    if entries == [] then 0
    else
      var init := entries[..|entries| - 1];
      assert forall e :: e in init ==> e in entries;
      Sum(init, n) + Amount(entries[|entries| - 1], n)
  }

  /** The total shown for `n`; entries not loaded yet (`undefined`) count as 0. */
  function DailyTotal(entries: Option<seq<FoodEntry>>, n: Nutrient): (t: int)
    ensures entries.None? || entries.value == [] ==> t == 0
    ensures entries.Some? && (forall e :: e in entries.value ==> Amount(e, n) >= 0) ==> t >= 0
  {
    match entries
    case None => 0
    case Some(es) => Sum(es, n)
  }

  function Min(x: real, y: real): real {
    if x <= y then x else y
  }

  /** `Math.min(total / target * 100, 100)` for a positive target. */
  function Progress(total: int, target: int): (p: real)
    requires target > 0
    ensures p <= 100.0
    ensures p == 100.0 <==> total >= target
    ensures total <= target ==> p * (target as real) == 100.0 * (total as real)
    ensures total >= 0 ==> p >= 0.0
  {
    var ratio := total as real / target as real;
    assert ratio * (target as real) == total as real;
    assert ratio >= 1.0 <==> total >= target;
    assert total >= 0 ==> ratio >= 0.0;
    Min(ratio * 100.0, 100.0)
  }

  /** The warning banner's condition: the calorie total strictly exceeds the
      target. It divides by nothing, so any target is allowed. */
  function Warning(user: User, entries: Option<seq<FoodEntry>>): (w: bool)
    ensures w <==> DailyTotal(entries, Calories) > user.dailyCalorieTarget
    ensures entries.None? ==> (w <==> user.dailyCalorieTarget < 0)
  {
    DailyTotal(entries, Calories) > user.dailyCalorieTarget
  }

  /** Everything the tracker displays for one user and one fetch. */
  datatype DailyView = DailyView(
    totalCalories: int,
    totalProtein: int,
    calorieProgress: real,
    proteinProgress: real,
    showWarning: bool)

  /** The tracker's figures for `user` over the fetched `entries`. The two
      progress values divide by the targets, hence the positive targets. */
  function Summarize(user: User, entries: Option<seq<FoodEntry>>): (v: DailyView)
    requires user.dailyCalorieTarget > 0 && user.dailyProteinTarget > 0
    ensures v.totalCalories == DailyTotal(entries, Calories)
    ensures v.totalProtein == DailyTotal(entries, Protein)
    ensures v.showWarning == Warning(user, entries)
    ensures v.calorieProgress <= 100.0 && v.proteinProgress <= 100.0
    ensures v.calorieProgress == 100.0 <==> v.totalCalories >= user.dailyCalorieTarget
    ensures v.proteinProgress == 100.0 <==> v.totalProtein >= user.dailyProteinTarget
    ensures v.showWarning ==> v.calorieProgress == 100.0
    ensures !v.showWarning ==>
      v.calorieProgress * (user.dailyCalorieTarget as real) == 100.0 * (v.totalCalories as real)
    ensures v.totalProtein <= user.dailyProteinTarget ==>
      v.proteinProgress * (user.dailyProteinTarget as real) == 100.0 * (v.totalProtein as real)
    ensures v.totalCalories >= 0 ==> v.calorieProgress >= 0.0
    ensures v.totalProtein >= 0 ==> v.proteinProgress >= 0.0
    ensures entries.None? ==>
      v.totalCalories == 0 && v.totalProtein == 0 && v.calorieProgress == 0.0 &&
      v.proteinProgress == 0.0 && !v.showWarning
  {
    var calories := DailyTotal(entries, Calories);
    var protein := DailyTotal(entries, Protein);
    DailyView(
      calories,
      protein,
      Progress(calories, user.dailyCalorieTarget),
      Progress(protein, user.dailyProteinTarget),
      Warning(user, entries))
  }

  /** The total over two runs of entries is the sum of their totals, so
      entries can be added up in any grouping. */
  lemma {:induction false} SumConcat(a: seq<FoodEntry>, b: seq<FoodEntry>, n: Nutrient)
    ensures Sum(a + b, n) == Sum(a, n) + Sum(b, n)
  {
    if b == [] {
      assert a + b == a;
    } else {
      var init := b[..|b| - 1];
      assert (a + b)[..|a + b| - 1] == a + init;
      assert (a + b)[|a + b| - 1] == b[|b| - 1];
      SumConcat(a, init, n);
    }
  }

  /** A total depends only on that nutrient's amounts, entry by entry. */
  lemma {:induction false} SumOfAmounts(a: seq<FoodEntry>, b: seq<FoodEntry>, n: Nutrient)
    requires |a| == |b|
    requires forall i :: 0 <= i < |a| ==> Amount(a[i], n) == Amount(b[i], n)
    ensures Sum(a, n) == Sum(b, n)
  {
    if a != [] {
      SumOfAmounts(a[..|a| - 1], b[..|b| - 1], n);
    }
  }

  /** The warning and the calorie progress look at calories only: two fetches
      whose entries carry the same calories, whatever their protein, give the
      same warning and the same calorie figures. */
  lemma WarningIgnoresProtein(user: User, a: seq<FoodEntry>, b: seq<FoodEntry>)
    requires |a| == |b|
    requires forall i :: 0 <= i < |a| ==> a[i].calories == b[i].calories
    ensures Warning(user, Some(a)) == Warning(user, Some(b))
    ensures DailyTotal(Some(a), Calories) == DailyTotal(Some(b), Calories)
    ensures user.dailyCalorieTarget > 0 && user.dailyProteinTarget > 0 ==>
      Summarize(user, Some(a)).calorieProgress == Summarize(user, Some(b)).calorieProgress
  {
    SumOfAmounts(a, b, Calories);
  }

  /** Worked cases for a 2000 kcal target: 3000 kcal shows 100 and the
      warning, 1000 kcal shows 50, exactly 2000 shows no warning, 2001 does. */
  lemma TrackerExamples(user: User)
    requires user.dailyCalorieTarget == 2000
    ensures Progress(3000, 2000) == 100.0
    ensures Progress(1000, 2000) == 50.0
    ensures !Warning(user, Some([]))
    ensures forall e: FoodEntry :: e.calories == 2000 ==> !Warning(user, Some([e]))
    ensures forall e: FoodEntry :: e.calories == 2001 ==> Warning(user, Some([e]))
  {
    forall e: FoodEntry
      ensures Sum([e], Calories) == e.calories
    {
      assert [e][..0] == [];
    }
  }
}
