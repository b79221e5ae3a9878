# Shteyn Nutrition — a verified model of the plan pipeline

Shteyn Nutrition is an iOS app that asks a language model for a daily
nutrition plan. The plan comes back as a JSON reply, which the app
cleans, validates and turns into a `NutritionPlan`. The plan holds:

- a calorie target;
- protein, carbs and fats in grams;
- meal suggestions;
- recommendation text.

This project models that pipeline in Dafny and proves what it guarantees.
It also models the user profile and the onboarding screen that renames it.

| file | module | models |
|---|---|---|
| `wrappers.dfy` | `Wrappers` | `Option` and `Result` |
| `json.dfy` | `Json` | the parsed JSON value and its `as?` casts |
| `coding.dfy` | `Coding` | a keyed coding container and its decode errors |
| `meal.dfy` | `Meals` | `Meal`, `MealType`, the case-insensitive meal type, Codable |
| `nutrition_plan.dfy` | `Plans` | `NutritionPlan`: accessors, calories, percentages, Codable |
| `response_cleaner.dfy` | `ResponseCleaner` | `cleanJSONResponse`: fence removal and trimming |
| `plan_validator.dfy` | `PlanValidator` | `parseNutritionPlan` and `NutritionPlanError` |
| `user.dfy` | `Users` | `User`: construction, enums, `updateHeight` and `updateWeight` |
| `onboarding.dfy` | `Onboarding` | `OnboardingViewModel`: the first user and `updateUserName` |

Modelling choices:

- **Pure values.** Plans, meals, the cleaner and the validator are pure
  functions on datatypes.
- **Classes.** `User` is a class, because `updateHeight` and `updateWeight`
  change its fields in place. `OnboardingViewModel` is a class with a `user`
  field that `UpdateUserName` replaces.
- **Generated values.** `UUID()` and `Date()` results are parameters:
  - the plan id;
  - the creation date;
  - `mealIds`, a function from each entry's position in the reply to that
    meal's id.
- **Abort.** The user constructor's `fatalError` guards are preconditions.
- **JSON input.** The validator takes the reply text and the value that
  `JSONSerialization` produced from it. `Malformed` stands for a reply that
  is not JSON.
- **Integers.** `as? Int` accepts a JSON integer in the 64-bit range.

Four facts about the code that a reader might expect to be otherwise; the
model follows the code:

- **Cleaning.** `cleanJSONResponse` is not idempotent. `CleanNotIdempotent`
  gives an input that a second pass changes.
- **Meal names.** An empty meal name is not rejected. Only the suggestions
  are checked.
- **Recommendations.** They are stored as one string joined with `"\n"`,
  not as a list.
- **New recommendations.** They replace `aiRecommendations` rather than
  being appended. See `WithRecommendations`.

## Model

| member | source | states |
|---|---|---|
| Json.AsInt | Shteyn-Nutrition/Services/NutritionPlanService.swift:110 | `as? Int` succeeds exactly on an integer within the 64-bit range, and yields that integer |
| Json.AsString | Shteyn-Nutrition/Services/NutritionPlanService.swift:139 | `as? String` succeeds exactly on a string, and yields it |
| Json.AsObject | Shteyn-Nutrition/Services/NutritionPlanService.swift:105 | `as? [String: Any]` succeeds exactly on an object, and yields its fields |
| Json.AsStringArray | Shteyn-Nutrition/Services/NutritionPlanService.swift:113 | `as? [String]` succeeds exactly on an array of strings, and yields them in order |
| Json.AsObjectArray | Shteyn-Nutrition/Services/NutritionPlanService.swift:112 | `as? [[String: Any]]` succeeds exactly on an array of objects, and yields them in order |
| Json.IntField | Shteyn-Nutrition/Services/NutritionPlanService.swift:118-120 | reading an Int field succeeds exactly when the key holds an in-range integer |
| Json.StringField | Shteyn-Nutrition/Services/NutritionPlanService.swift:139 | reading a String field succeeds exactly when the key holds a string |
| Coding.StringsOf | Shteyn-Nutrition/Models/Meal.swift:13 | decoding a `[String]` gives a list that re-encodes to the same wire value |
| Coding.StringListRoundTrip | Shteyn-Nutrition/Models/Meal.swift:13 | a string list decodes back to itself |
| Coding.Required | Shteyn-Nutrition/Models/NutritionPlan.swift:50-56 | `decode(_:forKey:)`: a missing key gives keyNotFound, a value of the wrong type gives typeMismatch, otherwise the value |
| Coding.Optional | Shteyn-Nutrition/Models/Meal.swift:9-14 | `decodeIfPresent`: a missing key gives nil, a value of the wrong type gives typeMismatch, otherwise the value |
| Meals.MealTypeFromRaw | Shteyn-Nutrition/Models/Meal.swift:61-67 | `MealType(rawValue:)` only returns a case whose raw value is the argument |
| Meals.RawValueRoundTrip | Shteyn-Nutrition/Models/Meal.swift:61-67 | each meal type is read back from its raw value |
| Meals.Lowercased | Shteyn-Nutrition/Models/Meal.swift:52 | lower-casing keeps the length and lower-cases each character |
| Meals.EqualIgnoringCaseIsLowercasedEquality | Shteyn-Nutrition/Models/Meal.swift:52 | two names agree ignoring case exactly when their lower-cased forms are equal |
| Meals.LoweredRawValues | Shteyn-Nutrition/Models/Meal.swift:53-56 | the lower-cased raw values are the four labels the `switch` matches |
| Meals.Meal.Type | Shteyn-Nutrition/Models/Meal.swift:51-59 | a meal's type is the case its name equals ignoring case; it is `other` exactly when no other case matches |
| Meals.TypeOfRawValue | Shteyn-Nutrition/Models/Meal.swift:51-67 | a meal named by a raw value has that type |
| Meals.TypeIgnoresCase | Shteyn-Nutrition/Models/Meal.swift:52 | names that differ only in case give the same type |
| Meals.NewMeal | Shteyn-Nutrition/Models/Meal.swift:28-46 | `init(name:suggestions:)` stores the id, name and suggestions, with every optional field nil |
| Meals.MealKeysDistinct | Shteyn-Nutrition/Models/Meal.swift:16-26 | the nine coding keys are pairwise distinct |
| Meals.EncodeMeal | Shteyn-Nutrition/Models/Meal.swift:16-26 | the encoded meal has a key exactly for each present field, holding that field's value |
| Meals.EncodeMealOnlyFieldKeys | Shteyn-Nutrition/Models/Meal.swift:16-26 | every key of the encoded meal is the coding key of a present field |
| Meals.NameWireKey | Shteyn-Nutrition/Models/Meal.swift:18 | the name is written under "meal", and nothing is written under "name" |
| Meals.DecodeMeal | Shteyn-Nutrition/Models/Meal.swift:16-26 | a missing id fails with keyNotFound; a decoded meal's name came from the "meal" key |
| Meals.CarriedMealDecodes | Shteyn-Nutrition/Models/Meal.swift:3-26 | any container that holds exactly a meal's present fields under their keys decodes to that meal |
| Meals.MealRoundTrip | Shteyn-Nutrition/Models/Meal.swift:3-26 | decoding an encoded meal gives the meal back |
| Plans.MacroOrZero | Shteyn-Nutrition/Models/NutritionPlan.swift:13-15 | a macro accessor returns the stored grams, or 0 when the key is missing |
| Plans.Protein | Shteyn-Nutrition/Models/NutritionPlan.swift:13 | `protein` is the grams stored under "protein", or 0 when that key is missing |
| Plans.Carbs | Shteyn-Nutrition/Models/NutritionPlan.swift:14 | `carbs` is the grams stored under "carbs", or 0 when that key is missing |
| Plans.Fats | Shteyn-Nutrition/Models/NutritionPlan.swift:15 | `fats` is the grams stored under "fats", or 0 when that key is missing |
| Plans.CalculatedCalories | Shteyn-Nutrition/Models/NutritionPlan.swift:18-20 | the calories are 4 per gram of protein and carbs and 9 per gram of fat, and are not negative when the macros are not |
| Plans.PercentOfDaily | Shteyn-Nutrition/Models/NutritionPlan.swift:23-36 | a percentage is 0 when the calorie target is not positive, otherwise the macro's calories as a percentage of the target |
| Plans.ProteinPercentage | Shteyn-Nutrition/Models/NutritionPlan.swift:23-26 | 0 when the calorie target is not positive; otherwise the percentage times the target is 400 times the protein grams |
| Plans.CarbsPercentage | Shteyn-Nutrition/Models/NutritionPlan.swift:28-31 | 0 when the calorie target is not positive; otherwise the percentage times the target is 400 times the carb grams |
| Plans.FatsPercentage | Shteyn-Nutrition/Models/NutritionPlan.swift:33-36 | 0 when the calorie target is not positive; otherwise the percentage times the target is 900 times the fat grams |
| Plans.PercentagesAddUp | Shteyn-Nutrition/Models/NutritionPlan.swift:18-36 | the three percentages add up to the calculated calories as a percentage of the target, or to 0 when the target is not positive |
| Plans.MacroCaloriesFitInt | Shteyn-Nutrition/Services/NutritionPlanService.swift:125-127 | with every macro in 1..999 the calculated calories lie in 17..16983, so the Int arithmetic cannot overflow |
| Plans.WithRecommendations | Shteyn-Nutrition/ViewModels/NutritionAIManager.swift:30-32 | new recommendations replace `aiRecommendations` and change no other field |
| Plans.PlanKeysDistinct | Shteyn-Nutrition/Models/NutritionPlan.swift:38-46 | the seven coding keys are pairwise distinct |
| Plans.MacrosOf | Shteyn-Nutrition/Models/NutritionPlan.swift:53 | a decoded `[String: Int]` re-encodes to the same wire value |
| Plans.MacrosRoundTrip | Shteyn-Nutrition/Models/NutritionPlan.swift:53-64 | the macro dictionary decodes back to itself |
| Plans.DecodeMeals | Shteyn-Nutrition/Models/NutritionPlan.swift:54 | the k-th meal is the k-th element decoded as a `Meal`; decoding succeeds when every element is a keyed container that decodes as a `Meal` |
| Plans.MealsOf | Shteyn-Nutrition/Models/NutritionPlan.swift:54 | a value that is not a list fails with typeMismatch on "meal_suggestions"; otherwise the k-th meal is the k-th element decoded as a `Meal`, and decoding succeeds when every element does |
| Plans.MealsRoundTrip | Shteyn-Nutrition/Models/NutritionPlan.swift:54-65 | the meal list decodes back to itself, element by element |
| Plans.EncodePlan | Shteyn-Nutrition/Models/NutritionPlan.swift:59-68 | `encode(to:)` writes exactly seven keys |
| Plans.EncodePlanAt | Shteyn-Nutrition/Models/NutritionPlan.swift:59-68 | each field is written under its coding key |
| Plans.PlanWireKeys | Shteyn-Nutrition/Models/NutritionPlan.swift:38-46 | the fields are written under "user_id", "daily_calories", "meal_suggestions", "recommendations" and "created_at" |
| Plans.DecodePlan | Shteyn-Nutrition/Models/NutritionPlan.swift:48-57 | `init(from:)` succeeds only when all seven keys are present |
| Plans.DecodePlanOk | Shteyn-Nutrition/Models/NutritionPlan.swift:48-57 | when every key decodes to a plan's field, the decoder yields that plan |
| Plans.PlanRoundTrip | Shteyn-Nutrition/Models/NutritionPlan.swift:48-68 | decoding an encoded plan gives the plan back |
| ResponseCleaner.SkipLeading | Shteyn-Nutrition/Services/DeepSeekService.swift:27 | the leading run of whitespace and newlines ends at the first character that is neither |
| ResponseCleaner.SkipTrailing | Shteyn-Nutrition/Services/DeepSeekService.swift:27 | the trailing run of whitespace and newlines starts just after the last character that is neither |
| ResponseCleaner.Trim | Shteyn-Nutrition/Services/DeepSeekService.swift:27 | the result has no whitespace at either end, and it is the input with only whitespace removed on both sides |
| ResponseCleaner.TrimOfTrimmed | Shteyn-Nutrition/Services/DeepSeekService.swift:27 | trimming a trimmed string changes nothing |
| ResponseCleaner.DropJsonFence | Shteyn-Nutrition/Services/DeepSeekService.swift:21-23 | a leading "```json" is removed, and otherwise the input is kept |
| ResponseCleaner.DropClosingFence | Shteyn-Nutrition/Services/DeepSeekService.swift:24-26 | a trailing "```" is removed, and otherwise the input is kept |
| ResponseCleaner.DropJsonFenceSplits | Shteyn-Nutrition/Services/DeepSeekService.swift:21-23 | what the first step removes is exactly the "```json" fence: the fence followed by the result is the input |
| ResponseCleaner.DropClosingFenceSplits | Shteyn-Nutrition/Services/DeepSeekService.swift:24-26 | what the second step removes is exactly the closing "```": the result followed by the fence is the input |
| ResponseCleaner.CleanJsonResponse | Shteyn-Nutrition/Services/DeepSeekService.swift:18-28 | the cleaned reply has no whitespace at either end and is never longer than the input |
| ResponseCleaner.CleanWithoutFences | Shteyn-Nutrition/Services/DeepSeekService.swift:18-28 | a reply without fences is only trimmed |
| ResponseCleaner.CleanFencedBlock | Shteyn-Nutrition/Services/DeepSeekService.swift:18-28 | a reply that is exactly a fenced block cleans to its trimmed body |
| ResponseCleaner.CleanIsSlice | Shteyn-Nutrition/Services/DeepSeekService.swift:18-28 | the cleaned reply is a contiguous part of the input |
| ResponseCleaner.CleanAgainWithoutFences | Shteyn-Nutrition/Services/DeepSeekService.swift:18-28 | cleaning again changes nothing when the first result has no fences left |
| ResponseCleaner.CleanNotIdempotent | Shteyn-Nutrition/Services/DeepSeekService.swift:18-28 | a second pass can change the result: " ```json{}```" cleans to "```json{}", which cleans to "{}" |
| ResponseCleaner.TrailingNewlineKeepsFence | Shteyn-Nutrition/Services/DeepSeekService.swift:24-27 | a fenced block followed by a newline keeps its closing fence: "```json{}```\n" cleans to "{}```" |
| ResponseCleaner.CleanJsonResponseTrimFirst | Shteyn-Nutrition/Services/DeepSeekService.swift:18-28 | the corrected cleaner also yields a trimmed part of the input |
| ResponseCleaner.TrimFirstAgreesWhenTrimmed | Shteyn-Nutrition/Services/DeepSeekService.swift:18-28 | on a reply with no surrounding whitespace the corrected cleaner agrees with the original |
| ResponseCleaner.TrimFirstStripsPaddedBlock | Shteyn-Nutrition/Services/DeepSeekService.swift:18-28 | the corrected cleaner reduces a fenced block with any surrounding whitespace to its trimmed body |
| PlanValidator.ReadTopLevel | Shteyn-Nutrition/Services/NutritionPlanService.swift:110-115 | the four required fields are read exactly when each has its type, and they carry the reply's values |
| PlanValidator.ReadMacros | Shteyn-Nutrition/Services/NutritionPlanService.swift:118-122 | the macros are read exactly when protein, carbs and fats are all Ints, and they are those values |
| PlanValidator.MacroMap | Shteyn-Nutrition/Services/NutritionPlanService.swift:131-135 | the stored dictionary has exactly the keys protein, carbs and fats, with the validated values |
| PlanValidator.EntryMeal | Shteyn-Nutrition/Services/NutritionPlanService.swift:147 | a kept entry becomes a meal with its name and all its suggestions, which are non-empty strings |
| PlanValidator.MealFromEntry | Shteyn-Nutrition/Services/NutritionPlanService.swift:138-148 | the closure returns a meal exactly for an entry with a string "meal" and a non-empty list of non-empty string suggestions |
| PlanValidator.KeptIndices | Shteyn-Nutrition/Services/NutritionPlanService.swift:138-148 | the positions of the kept entries, every one of them, in increasing order |
| PlanValidator.FilterMeals | Shteyn-Nutrition/Services/NutritionPlanService.swift:138-148 | `compactMap` keeps the meals of exactly the kept entries, in their input order |
| PlanValidator.RequiredNamesNeedThreeMeals | Shteyn-Nutrition/Services/NutritionPlanService.swift:151-154 | a list that holds "Breakfast", "Lunch" and "Dinner" has at least three meals |
| PlanValidator.HasRequiredMeals | Shteyn-Nutrition/Services/NutritionPlanService.swift:151-154 | the guard passes exactly when "Breakfast", "Lunch" and "Dinner" are all present, so its `count >= 3` test never decides the outcome |
| PlanValidator.JoinLines | Shteyn-Nutrition/Services/NutritionPlanService.swift:169 | joining no lines gives "", and joining one line gives that line |
| PlanValidator.SplitJoinRoundTrip | Shteyn-Nutrition/Services/NutritionPlanService.swift:169 | splitting the joined recommendations at newlines gives them back, when there is at least one and none contains a newline |
| PlanValidator.ParseNutritionPlan | Shteyn-Nutrition/Services/NutritionPlanService.swift:97-171 | an accepted plan has its calories in range, exactly three in-range macros, the required meals, and only meals with non-empty suggestions; its ids and date are the given ones; the parser never reports apiError |
| PlanValidator.ParseErrors | Shteyn-Nutrition/Services/NutritionPlanService.swift:97-182 | each error is reported exactly when its check fails and every earlier check passed, in source order with the calorie range last; the plan is returned exactly when every check passes |
| PlanValidator.AcceptedPlan | Shteyn-Nutrition/Services/NutritionPlanService.swift:163-170 | an accepted plan carries the reply's calorie target, macros, surviving meals in order, and recommendations joined by newlines |
| PlanValidator.FilterContents | Shteyn-Nutrition/Services/NutritionPlanService.swift:138-148 | the kept meals say what the kept entries say, whatever ids they are given |
| PlanValidator.KeptContentsConcat | Shteyn-Nutrition/Services/NutritionPlanService.swift:138-148 | filtering works entry by entry across a concatenation |
| PlanValidator.DroppedEntryIsInvisible | Shteyn-Nutrition/Services/NutritionPlanService.swift:138-156 | an entry that is dropped, wherever it stands, changes neither the surviving meals nor the required-meals check |
| PlanValidator.DroppedEntryKeepsContents | Shteyn-Nutrition/Services/NutritionPlanService.swift:138-148 | inserting an entry that the filter drops leaves what the kept entries say unchanged |
| PlanValidator.RequiredMealsByContents | Shteyn-Nutrition/Services/NutritionPlanService.swift:151-156 | the required-meals check depends only on the meals' names, not on their ids |
| Users.UnitSystemFromRaw | Shteyn-Nutrition/Models/User.swift:67-69 | `UnitSystem(rawValue:)` only returns a case whose raw value is the argument |
| Users.GenderFromRaw | Shteyn-Nutrition/Models/User.swift:71-73 | `Gender(rawValue:)` only returns a case whose raw value is the argument |
| Users.ActivityLevelFromRaw | Shteyn-Nutrition/Models/User.swift:75-81 | `ActivityLevel(rawValue:)` only returns a case whose raw value is the argument |
| Users.NutritionGoalFromRaw | Shteyn-Nutrition/Models/User.swift:83-88 | `NutritionGoal(rawValue:)` only returns a case whose raw value is the argument |
| Users.RawValuesRoundTrip | Shteyn-Nutrition/Models/User.swift:67-88 | every case of the four enums is read back from its raw value |
| Users.ResolvedName | Shteyn-Nutrition/Models/User.swift:28 | the constructor never stores an empty name: it keeps the given name, or uses "New User" when that is empty |
| Users.ClampInches | Shteyn-Nutrition/Models/User.swift:92 | inches are clamped into 0..11 and kept when already there |
| Users.HeightCm | Shteyn-Nutrition/Models/User.swift:92-94 | the new height is the feet in centimetres plus between 0 and 11 clamped inches, so inches add at most 27.94 cm |
| Users.HeightIsTotalInches | Shteyn-Nutrition/Models/User.swift:90-95 | the new height is 2.54 cm per clamped inch in total, so it is positive exactly when 12·feet + inches is |
| Users.InchesDoNotCarry | Shteyn-Nutrition/Models/User.swift:92-94 | 12 inches count as 11 and -1 as 0, and they never carry into the next foot |
| Users.WeightKg | Shteyn-Nutrition/Models/User.swift:98 | the kilograms stored for a weight in pounds give those pounds back at 2.20462 pounds per kilogram |
| Users.WeightRoundTrip | Shteyn-Nutrition/Models/User.swift:52-99 | the stored weight, read back in pounds, is the pounds given, and it is positive exactly when they are |
| Users.User.WeightInPounds | Shteyn-Nutrition/Models/User.swift:53 | the weight in pounds is positive exactly when the stored weight is |
| Users.User.constructor | Shteyn-Nutrition/Models/User.swift:14-36 | requires positive age, weight and height; stores every argument, with the name resolved and imperial units by default |
| Users.User.UpdateHeight | Shteyn-Nutrition/Models/User.swift:90-95 | sets the height from feet and clamped inches, and changes nothing else; the positive-height invariant survives exactly when the total is positive |
| Users.User.UpdateWeight | Shteyn-Nutrition/Models/User.swift:97-99 | sets the weight from pounds, and changes nothing else; it reads back as the pounds given |
| Onboarding.Renamed | Shteyn-Nutrition/ViewModels/OnboardingViewModel.swift:20-33 | an empty name changes nothing, and any other name replaces the name and nothing else |
| Onboarding.RenameIdempotent | Shteyn-Nutrition/ViewModels/OnboardingViewModel.swift:20-33 | renaming twice to the same name is renaming once |
| Onboarding.RenameLastWins | Shteyn-Nutrition/ViewModels/OnboardingViewModel.swift:20-33 | of two renames, the last one with a non-empty name decides |
| Onboarding.InitialProfile | Shteyn-Nutrition/ViewModels/OnboardingViewModel.swift:5-15 | the starting user meets the constructor's guards, is named "New User" and uses imperial units |
| Onboarding.OnboardingViewModel.constructor | Shteyn-Nutrition/ViewModels/OnboardingViewModel.swift:5-17 | the screen starts with the default user and is not loading |
| Onboarding.OnboardingViewModel.UpdateUserName | Shteyn-Nutrition/ViewModels/OnboardingViewModel.swift:20-33 | an empty name keeps the same user, whatever its state; any other name installs a new user that differs from the old one only in its name; the constructor guards survive |

## Left out

- JSON text parsing (`JSONSerialization`, `data(using: .utf8)`): the validator receives its outcome as a parameter.
- Foundation's number bridging: `as? Int` also accepts an integral floating-point number or a Bool; the model accepts only JSON integers.
- Swift strings compare by grapheme cluster; the model compares Unicode scalars.
- `lowercased()` is modelled for ASCII letters only.
- Double arithmetic is modelled with exact reals, so rounding is not modelled. This covers the percentages, `updateHeight` and `updateWeight`.
- Plans.CalculatedCalories: the Int overflow trap is not modelled. `MacroCaloriesFitInt` shows it cannot happen for validated plans.
- Plans.ProteinPercentage, Plans.CarbsPercentage, Plans.FatsPercentage: the Int overflow trap of `protein * 4`, `carbs * 4` and `fats * 9` (NutritionPlan.swift:25, 30, 35) is not modelled; the products are exact integers. For validated plans the grams are below 1000, so the products cannot overflow.
- `UUID()` and `Date()` are parameters, because they are random and the clock respectively.
- The `weightInPounds` setter (User.swift:54) is left out: it performs the same division as `updateWeight`, which `UpdateWeight` models, and only the views call it.
- The `heightFeet` and `heightInches` accessors (User.swift:57-65) are left out: they rely on truncating Double conversions, and none of the modelled code calls them.
- User Codable keys (User.swift:39-49) are left out: nothing in the modelled pipeline encodes a user.
- The network calls, the DeepSeek and Supabase clients, and the prompt builders are left out.
- `saveUser` and the `isLoading`/`error` bookkeeping around it are left out: they are asynchronous persistence.
- The `errorDescription` texts of the errors are left out. The model keeps each case with its detail string.
- Users.User.constructor: `fatalError` is modelled as a precondition, not as a trap.
- Onboarding.OnboardingViewModel.UpdateUserName: with a non-empty name it requires the current user to meet the constructor's guards, because the rebuilt user would otherwise trap; `updateHeight`/`updateWeight` can leave those guards broken.
- The SwiftUI views, the app entry point and the environment configuration are left out.

## Findings

| source | as written | input that shows it | evidently intended | confidence | as-written member | corrected member |
|---|---|---|---|---|---|---|
| Shteyn-Nutrition/Services/DeepSeekService.swift:21-27 | the fences are removed before the whitespace is trimmed, so a reply ending in a newline keeps its closing fence | "```json{}```\n" cleans to "{}```", which is not valid JSON | trim first, so a fenced block with surrounding whitespace cleans to its body | not executed | ResponseCleaner.TrailingNewlineKeepsFence | ResponseCleaner.TrimFirstStripsPaddedBlock |
