/** The validated plan (`NutritionPlan` in Models/NutritionPlan.swift): its
    derived macro properties and its `Codable` form under the database's
    column names. */
module Plans {
  import opened Wrappers
  import opened Coding
  import opened Meals

  /** Memberwise, as the Swift struct. The datatype constructor is the
      memberwise `init`: every argument is stored unchanged. */
  datatype NutritionPlan = NutritionPlan(
    id: Uuid,
    userId: Uuid,
    dailyCalories: int,
    macronutrients: map<string, int>,
    mealSuggestions: seq<Meal>,
    aiRecommendations: string,
    createdAt: Date)

  /** A macro accessor: the map's entry, or 0 when the key is absent. */
  function MacroOrZero(p: NutritionPlan, key: string): (grams: int)
    ensures key in p.macronutrients ==> grams == p.macronutrients[key]
    ensures key !in p.macronutrients ==> grams == 0
  {
    if key in p.macronutrients then p.macronutrients[key] else 0
  }

  /** `protein`, `carbs` and `fats`: the grams under their key, or 0. */
  function Protein(p: NutritionPlan): (grams: int)
    ensures "protein" in p.macronutrients ==> grams == p.macronutrients["protein"]
    ensures "protein" !in p.macronutrients ==> grams == 0
  {
    MacroOrZero(p, "protein")
  }

  function Carbs(p: NutritionPlan): (grams: int)
    ensures "carbs" in p.macronutrients ==> grams == p.macronutrients["carbs"]
    ensures "carbs" !in p.macronutrients ==> grams == 0
  {
    MacroOrZero(p, "carbs")
  }

  function Fats(p: NutritionPlan): (grams: int)
    ensures "fats" in p.macronutrients ==> grams == p.macronutrients["fats"]
    ensures "fats" !in p.macronutrients ==> grams == 0
  {
    MacroOrZero(p, "fats")
  }

  /** Energy per gram: 4 kcal for protein and carbohydrate, 9 for fat. */
  const ProteinKcalPerGram: int := 4
  const CarbsKcalPerGram: int := 4
  const FatsKcalPerGram: int := 9

  /** `calculatedCalories`: the energy the three macros supply. Swift's
      overflow trap is not modelled; see MacroCaloriesFitInt. */
  function CalculatedCalories(p: NutritionPlan): (kcal: int)
    ensures Protein(p) >= 0 && Carbs(p) >= 0 && Fats(p) >= 0 ==> kcal >= 0
    ensures kcal == ProteinKcalPerGram * Protein(p) + CarbsKcalPerGram * Carbs(p) + FatsKcalPerGram * Fats(p)
  {
    Protein(p) * 4 + Carbs(p) * 4 + Fats(p) * 9
  }

  /** The share of `dailyCalories`, in percent, that `kcal` makes up, with
      the guard every percentage property applies: 0 when `dailyCalories`
      is not positive. Exact arithmetic stands for `Double`. */
  function PercentOfDaily(p: NutritionPlan, kcal: int): (pct: real)
    ensures p.dailyCalories <= 0 ==> pct == 0.0
    ensures p.dailyCalories > 0 ==> pct * p.dailyCalories as real == 100.0 * kcal as real
  {
    if p.dailyCalories <= 0 then 0.0
    else kcal as real / p.dailyCalories as real * 100.0
  }

  /** `proteinPercentage`, `carbsPercentage` and `fatsPercentage`: 0 without
      a positive target, otherwise the macro's calories in percent of it. */
  function ProteinPercentage(p: NutritionPlan): (pct: real)
    ensures p.dailyCalories <= 0 ==> pct == 0.0
    ensures p.dailyCalories > 0 ==> pct * p.dailyCalories as real == 400.0 * Protein(p) as real
  {
    PercentOfDaily(p, ProteinKcalPerGram * Protein(p))
  }

  function CarbsPercentage(p: NutritionPlan): (pct: real)
    ensures p.dailyCalories <= 0 ==> pct == 0.0
    ensures p.dailyCalories > 0 ==> pct * p.dailyCalories as real == 400.0 * Carbs(p) as real
  {
    PercentOfDaily(p, CarbsKcalPerGram * Carbs(p))
  }

  function FatsPercentage(p: NutritionPlan): (pct: real)
    ensures p.dailyCalories <= 0 ==> pct == 0.0
    ensures p.dailyCalories > 0 ==> pct * p.dailyCalories as real == 900.0 * Fats(p) as real
  {
    PercentOfDaily(p, FatsKcalPerGram * Fats(p))
  }

  /** The three percentages together account for `calculatedCalories` as a
      share of the daily target, and are all 0 when the target is not
      positive. */
  lemma PercentagesAddUp(p: NutritionPlan)
    ensures p.dailyCalories <= 0 ==>
      ProteinPercentage(p) == 0.0 && CarbsPercentage(p) == 0.0 && FatsPercentage(p) == 0.0
    ensures p.dailyCalories > 0 ==>
      (ProteinPercentage(p) + CarbsPercentage(p) + FatsPercentage(p)) * p.dailyCalories as real
        == 100.0 * CalculatedCalories(p) as real
  {
    if p.dailyCalories > 0 {
      var d := p.dailyCalories as real;
      var a, b, c := ProteinPercentage(p), CarbsPercentage(p), FatsPercentage(p);
      assert (a + b + c) * d == a * d + b * d + c * d;
    }
  }

  /** With every macro in grams in 1..999, as the validator admits them,
      `calculatedCalories` lies in 17..16983 and so cannot overflow Swift's
      `Int`. */
  lemma MacroCaloriesFitInt(p: NutritionPlan)
    requires 0 < Protein(p) < 1000 && 0 < Carbs(p) < 1000 && 0 < Fats(p) < 1000
    ensures 17 <= CalculatedCalories(p) <= 16983
  {
  }

  /** `aiRecommendations` is the one `var`: a later pass replaces the text
      and every other field keeps its value. */
  function WithRecommendations(p: NutritionPlan, text: string): (q: NutritionPlan)
    ensures q.aiRecommendations == text
    ensures q.id == p.id && q.userId == p.userId && q.dailyCalories == p.dailyCalories
    ensures q.macronutrients == p.macronutrients && q.mealSuggestions == p.mealSuggestions
    ensures q.createdAt == p.createdAt
  {
    p.(aiRecommendations := text)
  }

  /** The coding keys of `NutritionPlan`, with their wire names. */
  datatype PlanField =
    | IdKey | UserIdKey | DailyCaloriesKey | MacronutrientsKey
    | MealSuggestionsKey | AiRecommendationsKey | CreatedAtKey

  function PlanKey(f: PlanField): string {
    match f
    case IdKey => "id"
    case UserIdKey => "user_id"
    case DailyCaloriesKey => "daily_calories"
    case MacronutrientsKey => "macronutrients"
    case MealSuggestionsKey => "meal_suggestions"
    case AiRecommendationsKey => "recommendations"
    case CreatedAtKey => "created_at"
  }

  const AllPlanFields: set<PlanField> := {
    IdKey, UserIdKey, DailyCaloriesKey, MacronutrientsKey,
    MealSuggestionsKey, AiRecommendationsKey, CreatedAtKey}

  lemma PlanKeysDistinct(f: PlanField, g: PlanField)
    requires f != g
    ensures PlanKey(f) != PlanKey(g)
  {
    if |PlanKey(f)| == |PlanKey(g)| {
      assert PlanKey(f)[0] != PlanKey(g)[0];
    }
  }

  /** `[String: Int]` on the wire: a keyed container of integers. */
  function MacrosWire(m: map<string, int>): Wire {
    WKeyed(map k | k in m :: WInt(m[k]))
  }

  function MacrosOf(w: Wire): (r: Option<map<string, int>>)
    ensures r.Some? ==> MacrosWire(r.value) == w
  {
    if w.WKeyed? && forall k :: k in w.entries ==> w.entries[k].WInt? then
      Some(map k | k in w.entries :: w.entries[k].i)
    else None
  }

  lemma MacrosRoundTrip(m: map<string, int>)
    ensures MacrosOf(MacrosWire(m)) == Some(m)
  {
    var back := map k | k in MacrosWire(m).entries :: MacrosWire(m).entries[k].i;
    assert back == m;
  }

  /** `[Meal]` on the wire: a list of keyed containers. */
  function MealsWire(meals: seq<Meal>): (w: Wire)
    ensures w.WList? && |w.items| == |meals|
  {
    WList(seq(|meals|, j requires 0 <= j < |meals| => WKeyed(EncodeMeal(meals[j]))))
  }

  /** Decoding a `[Meal]`: every element must decode; the first failure is
      the result. The k-th meal is the k-th element decoded as a `Meal`. */
  function DecodeMeals(items: seq<Wire>): (r: Result<seq<Meal>, DecodeError>)
    ensures r.Ok? ==> |r.value| == |items|
    ensures r.Ok? ==> forall k :: 0 <= k < |items| ==>
      items[k].WKeyed? && DecodeMeal(items[k].entries) == Ok(r.value[k])
    ensures (forall k :: 0 <= k < |items| ==> items[k].WKeyed? && DecodeMeal(items[k].entries).Ok?) ==> r.Ok?
  {
    if items == [] then Ok([])
    else
      var last := items[|items| - 1];
      assert forall k :: 0 <= k < |items| - 1 ==> items[..|items| - 1][k] == items[k];
      var init :- DecodeMeals(items[..|items| - 1]);
      if !last.WKeyed? then Err(TypeMismatch(PlanKey(MealSuggestionsKey)))
      else
        var m :- DecodeMeal(last.entries);
        Ok(init + [m])
  }

  /** `decode([Meal].self, forKey: .mealSuggestions)` on the key's value:
      anything but a list is a type mismatch, and a list decodes element by
      element, succeeding exactly when every element decodes as a `Meal`. */
  function MealsOf(w: Wire): (r: Result<seq<Meal>, DecodeError>)
    ensures !w.WList? ==> r == Err(TypeMismatch(PlanKey(MealSuggestionsKey)))
    ensures r.Ok? ==> w.WList? && |r.value| == |w.items|
    ensures r.Ok? ==> forall k :: 0 <= k < |w.items| ==>
      w.items[k].WKeyed? && DecodeMeal(w.items[k].entries) == Ok(r.value[k])
    ensures w.WList? ==>
      (forall k :: 0 <= k < |w.items| ==> w.items[k].WKeyed? && DecodeMeal(w.items[k].entries).Ok?) ==> r.Ok?
  {
    if w.WList? then DecodeMeals(w.items) else Err(TypeMismatch(PlanKey(MealSuggestionsKey)))
  }

  /** A list whose every element carries the corresponding meal decodes
      to those meals. */
  lemma {:induction false} CarriedMealsDecode(items: seq<Wire>, meals: seq<Meal>)
    requires |items| == |meals|
    requires forall k :: 0 <= k < |items| ==> items[k].WKeyed? && Carries(items[k].entries, meals[k])
    ensures DecodeMeals(items) == Ok(meals)
  {
    if items != [] {
      var n := |items| - 1;
      CarriedMealsDecode(items[..n], meals[..n]);
      CarriedMealDecodes(items[n].entries, meals[n]);
      assert meals[..n] + [meals[n]] == meals;
    }
  }

  /** Decoding what `encode(to:)` wrote for a meal list gives it back. */
  lemma MealsRoundTrip(meals: seq<Meal>)
    ensures MealsOf(MealsWire(meals)) == Ok(meals)
  {
    var items := MealsWire(meals).items;
    forall k | 0 <= k < |items|
      ensures items[k].WKeyed? && Carries(items[k].entries, meals[k])
    {
      EncodeCarries(meals[k]);
    }
    CarriedMealsDecode(items, meals);
  }

  /** What `encode(to:)` writes for one field. */
  function PlanFieldWire(p: NutritionPlan, f: PlanField): Wire {
    match f
    case IdKey => WUuid(p.id)
    case UserIdKey => WUuid(p.userId)
    case DailyCaloriesKey => WInt(p.dailyCalories)
    case MacronutrientsKey => MacrosWire(p.macronutrients)
    case MealSuggestionsKey => MealsWire(p.mealSuggestions)
    case AiRecommendationsKey => WString(p.aiRecommendations)
    case CreatedAtKey => WDate(p.createdAt)
  }

  /** `encode(to:)`: the seven fields, each under its coding key. */
  function EncodePlan(p: NutritionPlan): (c: map<string, Wire>)
    ensures |c| == 7
  {
    map[
      "id" := PlanFieldWire(p, IdKey),
      "user_id" := PlanFieldWire(p, UserIdKey),
      "daily_calories" := PlanFieldWire(p, DailyCaloriesKey),
      "macronutrients" := PlanFieldWire(p, MacronutrientsKey),
      "meal_suggestions" := PlanFieldWire(p, MealSuggestionsKey),
      "recommendations" := PlanFieldWire(p, AiRecommendationsKey),
      "created_at" := PlanFieldWire(p, CreatedAtKey)]
  }

  /** Every field is written under its own key, and nothing overwrites it. */
  lemma EncodePlanAt(p: NutritionPlan, f: PlanField)
    ensures PlanKey(f) in EncodePlan(p)
    ensures EncodePlan(p)[PlanKey(f)] == PlanFieldWire(p, f)
  {
    forall g | g != f ensures PlanKey(g) != PlanKey(f) {
      PlanKeysDistinct(g, f);
    }
  }

  /** The wire names of the renamed fields. */
  lemma PlanWireKeys(p: NutritionPlan)
    ensures EncodePlan(p)["user_id"] == WUuid(p.userId)
    ensures EncodePlan(p)["daily_calories"] == WInt(p.dailyCalories)
    ensures EncodePlan(p)["meal_suggestions"] == MealsWire(p.mealSuggestions)
    ensures EncodePlan(p)["recommendations"] == WString(p.aiRecommendations)
    ensures EncodePlan(p)["created_at"] == WDate(p.createdAt)
  {
    EncodePlanAt(p, UserIdKey);
    EncodePlanAt(p, DailyCaloriesKey);
    EncodePlanAt(p, MealSuggestionsKey);
    EncodePlanAt(p, AiRecommendationsKey);
    EncodePlanAt(p, CreatedAtKey);
  }

  /** `init(from:)`: all seven keys are required. */
  function DecodePlan(c: map<string, Wire>): (r: Result<NutritionPlan, DecodeError>)
    ensures r.Ok? ==> forall f :: PlanKey(f) in c
  {
    var id :- Required(c, PlanKey(IdKey), UuidOf);
    var userId :- Required(c, PlanKey(UserIdKey), UuidOf);
    var dailyCalories :- Required(c, PlanKey(DailyCaloriesKey), IntOf);
    var macronutrients :- Required(c, PlanKey(MacronutrientsKey), MacrosOf);
    var mealSuggestions :- if PlanKey(MealSuggestionsKey) in c then MealsOf(c[PlanKey(MealSuggestionsKey)])
                           else Err(KeyNotFound(PlanKey(MealSuggestionsKey)));
    var aiRecommendations :- Required(c, PlanKey(AiRecommendationsKey), StringOf);
    var createdAt :- Required(c, PlanKey(CreatedAtKey), DateOf);
    Ok(NutritionPlan(id, userId, dailyCalories, macronutrients, mealSuggestions, aiRecommendations, createdAt))
  }

  /** When every key holds a value of the right type, decoding succeeds
      with exactly those values. */
  lemma DecodePlanOk(c: map<string, Wire>, p: NutritionPlan)
    requires Required(c, PlanKey(IdKey), UuidOf) == Ok(p.id)
    requires Required(c, PlanKey(UserIdKey), UuidOf) == Ok(p.userId)
    requires Required(c, PlanKey(DailyCaloriesKey), IntOf) == Ok(p.dailyCalories)
    requires Required(c, PlanKey(MacronutrientsKey), MacrosOf) == Ok(p.macronutrients)
    requires PlanKey(MealSuggestionsKey) in c
    requires MealsOf(c[PlanKey(MealSuggestionsKey)]) == Ok(p.mealSuggestions)
    requires Required(c, PlanKey(AiRecommendationsKey), StringOf) == Ok(p.aiRecommendations)
    requires Required(c, PlanKey(CreatedAtKey), DateOf) == Ok(p.createdAt)
    ensures DecodePlan(c) == Ok(p)
  {
  }

  lemma EncodedIdsDecode(p: NutritionPlan)
    ensures Required(EncodePlan(p), PlanKey(IdKey), UuidOf) == Ok(p.id)
    ensures Required(EncodePlan(p), PlanKey(UserIdKey), UuidOf) == Ok(p.userId)
    ensures Required(EncodePlan(p), PlanKey(CreatedAtKey), DateOf) == Ok(p.createdAt)
  {
    EncodePlanAt(p, IdKey);
    EncodePlanAt(p, UserIdKey);
    EncodePlanAt(p, CreatedAtKey);
  }

  lemma EncodedNumbersDecode(p: NutritionPlan)
    ensures Required(EncodePlan(p), PlanKey(DailyCaloriesKey), IntOf) == Ok(p.dailyCalories)
    ensures Required(EncodePlan(p), PlanKey(MacronutrientsKey), MacrosOf) == Ok(p.macronutrients)
  {
    EncodePlanAt(p, DailyCaloriesKey);
    EncodePlanAt(p, MacronutrientsKey);
    MacrosRoundTrip(p.macronutrients);
  }

  lemma EncodedMealsDecode(p: NutritionPlan)
    ensures PlanKey(MealSuggestionsKey) in EncodePlan(p)
    ensures MealsOf(EncodePlan(p)[PlanKey(MealSuggestionsKey)]) == Ok(p.mealSuggestions)
  {
    EncodePlanAt(p, MealSuggestionsKey);
    MealsUnderKey(EncodePlan(p), p.mealSuggestions);
  }

  lemma MealsUnderKey(c: map<string, Wire>, meals: seq<Meal>)
    requires PlanKey(MealSuggestionsKey) in c && c[PlanKey(MealSuggestionsKey)] == MealsWire(meals)
    ensures MealsOf(c[PlanKey(MealSuggestionsKey)]) == Ok(meals)
  {
    MealsRoundTrip(meals);
  }

  lemma EncodedTextDecodes(p: NutritionPlan)
    ensures Required(EncodePlan(p), PlanKey(AiRecommendationsKey), StringOf) == Ok(p.aiRecommendations)
  {
    EncodePlanAt(p, AiRecommendationsKey);
  }

  /** Decoding what `encode(to:)` wrote gives back the same seven field
      values. */
  lemma PlanRoundTrip(p: NutritionPlan)
    ensures DecodePlan(EncodePlan(p)) == Ok(p)
  {
    EncodedIdsDecode(p);
    EncodedNumbersDecode(p);
    EncodedMealsDecode(p);
    EncodedTextDecodes(p);
    DecodePlanOk(EncodePlan(p), p);
  }
}
