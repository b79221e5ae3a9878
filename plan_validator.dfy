/** `parseNutritionPlan` in Services/NutritionPlanService.swift: the
    fail-fast chain of checks that turns a language model's parsed JSON reply
    into a `NutritionPlan`, or into the `NutritionPlanError` of the first
    check that fails. */
module PlanValidator {
  import opened Wrappers
  import opened Json
  import opened Coding
  import opened Meals
  import opened Plans

  datatype NutritionPlanError =
    | ApiError
    | ParsingError(detail: string)
    | InvalidResponse(detail: string)
    | InvalidMacronutrients(detail: string)
    | InvalidMealSuggestions(detail: string)
    | EmptyResponse

  /** The detail texts, one per failing check. */
  const InvalidJsonFormat: string := "Invalid JSON format"
  const MissingRequiredFields: string := "Missing required fields"
  const InvalidMacroValues: string := "Missing or invalid macronutrient values"
  const MacrosOutOfRange: string := "Macronutrient values out of reasonable range"
  const MissingRequiredMeals: string := "Missing required meals"
  const CaloriesOutOfRange: string := "Daily calories out of reasonable range"

  /** Grams of one macronutrient: strictly between 0 and 1000. */
  predicate MacroInRange(grams: int) {
    0 < grams < 1000
  }

  /** The daily calorie target: 1200 to 5000 inclusive. */
  predicate CaloriesInRange(kcal: int) {
    1200 <= kcal <= 5000
  }

  // ---------------------------------------------------------------------
  // Stage 1: the top-level object and its four required fields

  /** `JSONSerialization` produced a dictionary at the top level. */
  predicate IsObject(d: Decoded) {
    d.Parsed? && d.value.JObject?
  }

  predicate IsIntegerField(obj: map<string, Json>, key: string) {
    key in obj && obj[key].JInt? && InIntRange(obj[key].i)
  }

  /** `daily_calories` is an Int, `macronutrients` a dictionary,
      `meal_suggestions` an array of dictionaries and `recommendations` an
      array of strings. */
  predicate HasRequiredFields(obj: map<string, Json>) {
    && IsIntegerField(obj, "daily_calories")
    && "macronutrients" in obj && obj["macronutrients"].JObject?
    && "meal_suggestions" in obj && obj["meal_suggestions"].JArray?
    && AllObjects(obj["meal_suggestions"].items)
    && "recommendations" in obj && obj["recommendations"].JArray?
    && AllStrings(obj["recommendations"].items)
  }

  /** The four required fields, cast. */
  datatype TopLevel = TopLevel(
    dailyCalories: int,
    macronutrients: map<string, Json>,
    mealSuggestions: seq<map<string, Json>>,
    recommendations: seq<string>)

  function ReadTopLevel(obj: map<string, Json>): (r: Option<TopLevel>)
    ensures r.Some? <==> HasRequiredFields(obj)
    ensures r.Some? ==> r.value.dailyCalories == obj["daily_calories"].i
    ensures r.Some? ==> JObject(r.value.macronutrients) == obj["macronutrients"]
    ensures r.Some? ==> |r.value.mealSuggestions| == |obj["meal_suggestions"].items|
    ensures r.Some? ==> forall k :: 0 <= k < |r.value.mealSuggestions| ==>
      obj["meal_suggestions"].items[k] == JObject(r.value.mealSuggestions[k])
    ensures r.Some? ==> |r.value.recommendations| == |obj["recommendations"].items|
    ensures r.Some? ==> forall k :: 0 <= k < |r.value.recommendations| ==>
      obj["recommendations"].items[k] == JString(r.value.recommendations[k])
  {
    match (IntField(obj, "daily_calories"),
           if "macronutrients" in obj then AsObject(obj["macronutrients"]) else None,
           if "meal_suggestions" in obj then AsObjectArray(obj["meal_suggestions"]) else None,
           if "recommendations" in obj then AsStringArray(obj["recommendations"]) else None)
    case (Some(kcal), Some(macros), Some(meals), Some(recs)) => Some(TopLevel(kcal, macros, meals, recs))
    case _ => None
  }

  // ---------------------------------------------------------------------
  // Stage 2: the macronutrients

  predicate HasMacroFields(macros: map<string, Json>) {
    IsIntegerField(macros, "protein") && IsIntegerField(macros, "carbs") && IsIntegerField(macros, "fats")
  }

  datatype Macros = Macros(protein: int, carbs: int, fats: int)

  function ReadMacros(macros: map<string, Json>): (r: Option<Macros>)
    ensures r.Some? <==> HasMacroFields(macros)
    ensures r.Some? ==> r.value == Macros(macros["protein"].i, macros["carbs"].i, macros["fats"].i)
  {
    match (IntField(macros, "protein"), IntField(macros, "carbs"), IntField(macros, "fats"))
    case (Some(p), Some(c), Some(f)) => Some(Macros(p, c, f))
    case _ => None
  }

  predicate MacrosInRange(m: Macros) {
    MacroInRange(m.protein) && MacroInRange(m.carbs) && MacroInRange(m.fats)
  }

  /** The dictionary the plan stores: exactly the three keys. */
  function MacroMap(m: Macros): (grams: map<string, int>)
    ensures grams.Keys == {"protein", "carbs", "fats"}
    ensures grams["protein"] == m.protein && grams["carbs"] == m.carbs && grams["fats"] == m.fats
  {
    map["protein" := m.protein, "carbs" := m.carbs, "fats" := m.fats]
  }

  // ---------------------------------------------------------------------
  // Stage 3: the meals, filtered entry by entry

  /** The entry has a string `meal` and a non-empty array `suggestions` of
      non-empty strings. The `meal` string itself may be empty. */
  predicate KeepsEntry(entry: map<string, Json>) {
    && "meal" in entry && entry["meal"].JString?
    && "suggestions" in entry && entry["suggestions"].JArray?
    && AllStrings(entry["suggestions"].items)
    && |entry["suggestions"].items| > 0
    && forall k :: 0 <= k < |entry["suggestions"].items| ==> entry["suggestions"].items[k].s != ""
  }

  /** The meal a kept entry becomes: `Meal(name:suggestions:)` with a fresh
      id. */
  function EntryMeal(entry: map<string, Json>, id: Uuid): (m: Meal)
    requires KeepsEntry(entry)
    ensures m == NewMeal(id, entry["meal"].s, m.suggestions)
    ensures |m.suggestions| == |entry["suggestions"].items| > 0
    ensures forall k :: 0 <= k < |m.suggestions| ==>
      entry["suggestions"].items[k] == JString(m.suggestions[k]) && m.suggestions[k] != ""
  {
    var suggestions := AsStringArray(entry["suggestions"]).value;
    NewMeal(id, entry["meal"].s, suggestions)
  }

  /** The closure passed to `compactMap`: nil drops the entry. */
  function MealFromEntry(entry: map<string, Json>, id: Uuid): (r: Option<Meal>)
    ensures r.Some? <==> KeepsEntry(entry)
    ensures r.Some? ==> r.value == EntryMeal(entry, id)
  {
    match (StringField(entry, "meal"), if "suggestions" in entry then AsStringArray(entry["suggestions"]) else None)
    case (Some(name), Some(suggestions)) =>
      if suggestions != [] && forall k :: 0 <= k < |suggestions| ==> suggestions[k] != "" then
        Some(NewMeal(id, name, suggestions))
      else None
    case _ => None
  }

  /** The positions of the entries that survive, in increasing order. */
  function KeptIndices(entries: seq<map<string, Json>>): (idx: seq<nat>)
    ensures |idx| <= |entries|
    ensures forall j :: 0 <= j < |idx| ==> idx[j] < |entries| && KeepsEntry(entries[idx[j]])
    ensures forall j, k :: 0 <= j < k < |idx| ==> idx[j] < idx[k]
    ensures forall i :: 0 <= i < |entries| && KeepsEntry(entries[i]) ==> i in idx
  {
    if entries == [] then []
    else
      var n := |entries| - 1;
      var init := KeptIndices(entries[..n]);
      assert forall i :: 0 <= i < n ==> entries[..n][i] == entries[i];
      if KeepsEntry(entries[n]) then init + [n] else init
  }

  /** `mealSuggestions.compactMap { ... }`. The entry at position `i` that
      survives gets the fresh id `mealIds(i)`. The surviving meals keep
      their input order. */
  function FilterMeals(entries: seq<map<string, Json>>, mealIds: nat -> Uuid): (meals: seq<Meal>)
    ensures |meals| == |KeptIndices(entries)|
    ensures forall j :: 0 <= j < |meals| ==>
      meals[j] == EntryMeal(entries[KeptIndices(entries)[j]], mealIds(KeptIndices(entries)[j]))
  {
    if entries == [] then []
    else
      var n := |entries| - 1;
      var init := FilterMeals(entries[..n], mealIds);
      assert KeptIndices(entries[..n]) == KeptIndices(entries)[..|init|];
      match MealFromEntry(entries[n], mealIds(n))
      case Some(m) => init + [m]
      case None => init
  }

  // ---------------------------------------------------------------------
  // Stage 4: the required meals

  predicate HasMealNamed(meals: seq<Meal>, name: string) {
    exists j :: 0 <= j < |meals| && meals[j].name == name
  }

  /** Three different names occupy three different positions, so a list
      holding "Breakfast", "Lunch" and "Dinner" has at least three meals. */
  lemma RequiredNamesNeedThreeMeals(meals: seq<Meal>)
    ensures HasMealNamed(meals, "Breakfast") && HasMealNamed(meals, "Lunch") && HasMealNamed(meals, "Dinner")
      ==> |meals| >= 3
  {
  }

  /** At least three meals, among them "Breakfast", "Lunch" and "Dinner"
      spelt exactly so. */
  predicate HasRequiredMeals(meals: seq<Meal>)
    ensures HasRequiredMeals(meals) <==>
      HasMealNamed(meals, "Breakfast") && HasMealNamed(meals, "Lunch") && HasMealNamed(meals, "Dinner")
  {
    RequiredNamesNeedThreeMeals(meals);
    && |meals| >= 3
    && HasMealNamed(meals, "Breakfast")
    && HasMealNamed(meals, "Lunch")
    && HasMealNamed(meals, "Dinner")
  }

  // ---------------------------------------------------------------------
  // Assembly

  /** `recommendations.joined(separator: "\n")` */
  function JoinLines(lines: seq<string>): (text: string)
    ensures lines == [] ==> text == ""
    ensures |lines| == 1 ==> text == lines[0]
  {
    if lines == [] then ""
    else if |lines| == 1 then lines[0]
    else JoinLines(lines[..|lines| - 1]) + "\n" + lines[|lines| - 1]
  }

  /** `parseNutritionPlan(from:userId:)`. `decoded` is what
      `JSONSerialization` made of `response`; `planId`, `mealIds` and
      `createdAt` stand for the `UUID()` and `Date()` values it creates. */
  function ParseNutritionPlan(
    response: string, decoded: Decoded, userId: Uuid,
    planId: Uuid, mealIds: nat -> Uuid, createdAt: Date): (r: Result<NutritionPlan, NutritionPlanError>)
    ensures r.Ok? ==> ValidatedPlan(r.value)
    ensures r.Ok? ==> r.value.id == planId && r.value.userId == userId && r.value.createdAt == createdAt
    ensures r.Err? ==> !r.error.ApiError?
  {
    if response == "" then Err(EmptyResponse)
    else if !IsObject(decoded) then Err(ParsingError(InvalidJsonFormat))
    else match ReadTopLevel(decoded.value.fields)
      case None => Err(InvalidResponse(MissingRequiredFields))
      case Some(top) =>
        match ReadMacros(top.macronutrients)
        case None => Err(InvalidMacronutrients(InvalidMacroValues))
        case Some(macros) =>
          if !MacrosInRange(macros) then Err(InvalidMacronutrients(MacrosOutOfRange))
          else
            var meals := FilterMeals(top.mealSuggestions, mealIds);
            if !HasRequiredMeals(meals) then Err(InvalidMealSuggestions(MissingRequiredMeals))
            else if !CaloriesInRange(top.dailyCalories) then Err(InvalidResponse(CaloriesOutOfRange))
            else Ok(NutritionPlan(
              planId, userId, top.dailyCalories, MacroMap(macros), meals,
              JoinLines(top.recommendations), createdAt))
  }

  // ---------------------------------------------------------------------
  // What a plan that came through the validator satisfies

  predicate WellFormedMeal(m: Meal) {
    |m.suggestions| > 0 && forall k :: 0 <= k < |m.suggestions| ==> m.suggestions[k] != ""
  }

  predicate ValidatedPlan(p: NutritionPlan) {
    && CaloriesInRange(p.dailyCalories)
    && p.macronutrients.Keys == {"protein", "carbs", "fats"}
    && MacroInRange(Protein(p)) && MacroInRange(Carbs(p)) && MacroInRange(Fats(p))
    && HasRequiredMeals(p.mealSuggestions)
    && forall j :: 0 <= j < |p.mealSuggestions| ==> WellFormedMeal(p.mealSuggestions[j])
  }

  // ---------------------------------------------------------------------
  // How far a reply gets through the chain of checks

  /** Past the empty check, the JSON check and the required fields. */
  predicate ReachesMacros(response: string, decoded: Decoded) {
    response != "" && IsObject(decoded) && HasRequiredFields(decoded.value.fields)
  }

  function MacroJson(decoded: Decoded): map<string, Json>
    requires IsObject(decoded) && HasRequiredFields(decoded.value.fields)
  {
    decoded.value.fields["macronutrients"].fields
  }

  /** Past both macronutrient checks as well. */
  predicate ReachesMeals(response: string, decoded: Decoded) {
    && ReachesMacros(response, decoded)
    && HasMacroFields(MacroJson(decoded))
    && MacrosInRange(ReadMacros(MacroJson(decoded)).value)
  }

  /** The meals that survive filtering. */
  function SurvivingMeals(decoded: Decoded, mealIds: nat -> Uuid): seq<Meal>
    requires IsObject(decoded) && HasRequiredFields(decoded.value.fields)
  {
    FilterMeals(ReadTopLevel(decoded.value.fields).value.mealSuggestions, mealIds)
  }

  /** Past the required-meals check as well. */
  predicate ReachesCalories(response: string, decoded: Decoded, mealIds: nat -> Uuid) {
    ReachesMeals(response, decoded) && HasRequiredMeals(SurvivingMeals(decoded, mealIds))
  }

  /** Every check passes. */
  predicate Accepted(response: string, decoded: Decoded, mealIds: nat -> Uuid) {
    && ReachesCalories(response, decoded, mealIds)
    && CaloriesInRange(decoded.value.fields["daily_calories"].i)
  }

  /** Each error comes from exactly one check, and only when every check
      before it has passed; the calorie range is checked last. */
  lemma ParseErrors(
    response: string, decoded: Decoded, userId: Uuid,
    planId: Uuid, mealIds: nat -> Uuid, createdAt: Date)
    ensures var r := ParseNutritionPlan(response, decoded, userId, planId, mealIds, createdAt);
      && (r == Err(EmptyResponse) <==> response == "")
      && (r == Err(ParsingError(InvalidJsonFormat)) <==> response != "" && !IsObject(decoded))
      && (r == Err(InvalidResponse(MissingRequiredFields)) <==>
            response != "" && IsObject(decoded) && !HasRequiredFields(decoded.value.fields))
      && (r == Err(InvalidMacronutrients(InvalidMacroValues)) <==>
            ReachesMacros(response, decoded) && !HasMacroFields(MacroJson(decoded)))
      && (r == Err(InvalidMacronutrients(MacrosOutOfRange)) <==>
            && ReachesMacros(response, decoded) && HasMacroFields(MacroJson(decoded))
            && !MacrosInRange(ReadMacros(MacroJson(decoded)).value))
      && (r == Err(InvalidMealSuggestions(MissingRequiredMeals)) <==>
            ReachesMeals(response, decoded) && !HasRequiredMeals(SurvivingMeals(decoded, mealIds)))
      && (r == Err(InvalidResponse(CaloriesOutOfRange)) <==>
            ReachesCalories(response, decoded, mealIds)
            && !CaloriesInRange(decoded.value.fields["daily_calories"].i))
      && (r.Ok? <==> Accepted(response, decoded, mealIds))
  {
    assert MissingRequiredFields != CaloriesOutOfRange;
    assert InvalidMacroValues != MacrosOutOfRange;
  }

  /** A plan the validator accepts carries the reply's values: the calorie
      target, exactly the three macros, the surviving meals in input order
      and the recommendations joined by newlines. */
  lemma AcceptedPlan(
    response: string, decoded: Decoded, userId: Uuid,
    planId: Uuid, mealIds: nat -> Uuid, createdAt: Date)
    requires Accepted(response, decoded, mealIds)
    ensures var r := ParseNutritionPlan(response, decoded, userId, planId, mealIds, createdAt);
      var obj := decoded.value.fields;
      && r.Ok?
      && r.value.dailyCalories == obj["daily_calories"].i
      && r.value.macronutrients.Keys == {"protein", "carbs", "fats"}
      && Protein(r.value) == MacroJson(decoded)["protein"].i
      && Carbs(r.value) == MacroJson(decoded)["carbs"].i
      && Fats(r.value) == MacroJson(decoded)["fats"].i
      && r.value.mealSuggestions == SurvivingMeals(decoded, mealIds)
      && r.value.aiRecommendations == JoinLines(ReadTopLevel(obj).value.recommendations)
  {
  }

  // ---------------------------------------------------------------------
  // Dropped entries leave no trace

  /** What a meal says, without its generated id. */
  function MealContents(meals: seq<Meal>): (c: seq<(string, seq<string>)>)
    ensures |c| == |meals|
  {
    seq(|meals|, j requires 0 <= j < |meals| => (meals[j].name, meals[j].suggestions))
  }

  /** What the kept entries of `entries` say, in order, with no ids. */
  function KeptContents(entries: seq<map<string, Json>>): seq<(string, seq<string>)> {
    if entries == [] then []
    else
      var n := |entries| - 1;
      var last := entries[n];
      KeptContents(entries[..n])
        + if KeepsEntry(last) then [(last["meal"].s, EntryMeal(last, 0).suggestions)] else []
  }

  lemma ContentsAppend(meals: seq<Meal>, m: Meal)
    ensures MealContents(meals + [m]) == MealContents(meals) + [(m.name, m.suggestions)]
  {
  }

  /** The meals kept from a list of entries say what the kept entries say,
      whatever ids they are given. */
  lemma {:induction false} FilterContents(entries: seq<map<string, Json>>, ids: nat -> Uuid)
    ensures MealContents(FilterMeals(entries, ids)) == KeptContents(entries)
  {
    if entries != [] {
      var n := |entries| - 1;
      FilterContents(entries[..n], ids);
      var last := entries[n];
      if KeepsEntry(last) {
        assert FilterMeals(entries, ids) == FilterMeals(entries[..n], ids) + [EntryMeal(last, ids(n))];
        ContentsAppend(FilterMeals(entries[..n], ids), EntryMeal(last, ids(n)));
      }
    }
  }

  /** Filtering works entry by entry. */
  lemma {:induction false} KeptContentsConcat(a: seq<map<string, Json>>, b: seq<map<string, Json>>)
    ensures KeptContents(a + b) == KeptContents(a) + KeptContents(b)
  {
    if b == [] {
      assert a + b == a;
    } else {
      var n := |b| - 1;
      assert (a + b)[..|a + b| - 1] == a + b[..n];
      assert (a + b)[|a + b| - 1] == b[n];
      KeptContentsConcat(a, b[..n]);
    }
  }

  /** An entry the filter drops, wherever it stands, changes neither the
      meals that survive nor whether the required meals are present. */
  lemma DroppedEntryIsInvisible(
    a: seq<map<string, Json>>, bad: map<string, Json>, b: seq<map<string, Json>>, ids: nat -> Uuid, ids2: nat -> Uuid)
    requires !KeepsEntry(bad)
    ensures MealContents(FilterMeals(a + [bad] + b, ids)) == MealContents(FilterMeals(a + b, ids2))
    ensures HasRequiredMeals(FilterMeals(a + [bad] + b, ids)) == HasRequiredMeals(FilterMeals(a + b, ids2))
  {
    var m1 := FilterMeals(a + [bad] + b, ids);
    var m2 := FilterMeals(a + b, ids2);
    FilterContents(a + [bad] + b, ids);
    FilterContents(a + b, ids2);
    DroppedEntryKeepsContents(a, bad, b);
    RequiredMealsByContents(m1, m2);
  }

  lemma DroppedEntryKeepsContents(a: seq<map<string, Json>>, bad: map<string, Json>, b: seq<map<string, Json>>)
    requires !KeepsEntry(bad)
    ensures KeptContents(a + [bad] + b) == KeptContents(a + b)
  {
    KeptContentsConcat(a + [bad], b);
    KeptContentsConcat(a, [bad]);
    KeptContentsConcat(a, b);
    assert KeptContents([bad]) == [] by {
      assert [bad][..0] == [];
    }
  }

  /** Whether the required meals are present depends only on what the meals
      say. */
  lemma RequiredMealsByContents(m1: seq<Meal>, m2: seq<Meal>)
    requires MealContents(m1) == MealContents(m2)
    ensures HasRequiredMeals(m1) == HasRequiredMeals(m2)
  {
    forall name: string ensures HasMealNamed(m1, name) == HasMealNamed(m2, name) {
      if HasMealNamed(m1, name) {
        var j :| 0 <= j < |m1| && m1[j].name == name;
        assert MealContents(m1)[j].0 == name;
      }
      if HasMealNamed(m2, name) {
        var j :| 0 <= j < |m2| && m2[j].name == name;
        assert MealContents(m2)[j].0 == name;
      }
    }
  }

  // ---------------------------------------------------------------------
  // The joined recommendations

  /** Splitting at every newline: the inverse of `JoinLines`. */
  function SplitLines(text: string): (lines: seq<string>)
    ensures |lines| >= 1
  {
    if text == "" then [""]
    else
      var rest := SplitLines(text[1..]);
      if text[0] == '\n' then [""] + rest
      else [[text[0]] + rest[0]] + rest[1..]
  }

  predicate NoNewline(line: string) {
    forall k :: 0 <= k < |line| ==> line[k] != '\n'
  }

  lemma {:induction false} SplitWithoutNewline(line: string)
    requires NoNewline(line)
    ensures SplitLines(line) == [line]
  {
    if line != [] {
      SplitWithoutNewline(line[1..]);
      assert [line[0]] + line[1..] == line;
    }
  }

  lemma {:induction false} SplitAtNewline(a: string, b: string)
    ensures SplitLines(a + "\n" + b) == SplitLines(a) + SplitLines(b)
  {
    if a == [] {
      assert a + "\n" + b == "\n" + b;
      assert ("\n" + b)[1..] == b;
    } else {
      assert (a + "\n" + b)[1..] == a[1..] + "\n" + b;
      assert (a + "\n" + b)[0] == a[0];
      SplitAtNewline(a[1..], b);
    }
  }

  /** Splitting the joined recommendations at newlines gives them back, as
      long as there is at least one and none contains a newline itself. An
      empty list joins to "", which splits to one empty line. */
  lemma {:induction false} SplitJoinRoundTrip(lines: seq<string>)
    requires lines != []
    requires forall k :: 0 <= k < |lines| ==> NoNewline(lines[k])
    ensures SplitLines(JoinLines(lines)) == lines
  {
    var n := |lines| - 1;
    SplitWithoutNewline(lines[n]);
    if n > 0 {
      SplitJoinRoundTrip(lines[..n]);
      SplitAtNewline(JoinLines(lines[..n]), lines[n]);
      assert lines[..n] + [lines[n]] == lines;
    }
  }
}
