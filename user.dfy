/**
 * The user profile: constructed from positive measurements with a default
 * name, and updated in place from imperial units.  Heights are stored in
 * centimetres and weights in kilograms, as exact reals.
 */
module Users {
  import opened Wrappers
  import opened Coding

  // ---------------------------------------------------------------------
  // The enums and their raw values

  datatype UnitSystem = Metric | Imperial
  datatype Gender = Male | Female | Other
  datatype ActivityLevel = Sedentary | LightlyActive | ModeratelyActive | VeryActive | ExtraActive
  datatype NutritionGoal = WeightLoss | Maintenance | MuscleGain | HealthyEating

  function UnitSystemRaw(u: UnitSystem): string {
    match u
    case Metric => "metric"
    case Imperial => "imperial"
  }

  function UnitSystemFromRaw(raw: string): (r: Option<UnitSystem>)
    ensures r.Some? ==> UnitSystemRaw(r.value) == raw
  {
    if raw == "metric" then Some(Metric)
    else if raw == "imperial" then Some(Imperial)
    else None
  }

  function GenderRaw(g: Gender): string {
    match g
    case Male => "male"
    case Female => "female"
    case Other => "other"
  }

  function GenderFromRaw(raw: string): (r: Option<Gender>)
    ensures r.Some? ==> GenderRaw(r.value) == raw
  {
    if raw == "male" then Some(Male)
    else if raw == "female" then Some(Female)
    else if raw == "other" then Some(Other)
    else None
  }

  function ActivityLevelRaw(a: ActivityLevel): string {
    match a
    case Sedentary => "Sedentary"
    case LightlyActive => "Lightly Active"
    case ModeratelyActive => "Moderately Active"
    case VeryActive => "Very Active"
    case ExtraActive => "Extra Active"
  }

  function ActivityLevelFromRaw(raw: string): (r: Option<ActivityLevel>)
    ensures r.Some? ==> ActivityLevelRaw(r.value) == raw
  {
    if raw == "Sedentary" then Some(Sedentary)
    else if raw == "Lightly Active" then Some(LightlyActive)
    else if raw == "Moderately Active" then Some(ModeratelyActive)
    else if raw == "Very Active" then Some(VeryActive)
    else if raw == "Extra Active" then Some(ExtraActive)
    else None
  }

  function NutritionGoalRaw(g: NutritionGoal): string {
    match g
    case WeightLoss => "Weight Loss"
    case Maintenance => "Maintenance"
    case MuscleGain => "Muscle Gain"
    case HealthyEating => "Healthy Eating"
  }

  function NutritionGoalFromRaw(raw: string): (r: Option<NutritionGoal>)
    ensures r.Some? ==> NutritionGoalRaw(r.value) == raw
  {
    if raw == "Weight Loss" then Some(WeightLoss)
    else if raw == "Maintenance" then Some(Maintenance)
    else if raw == "Muscle Gain" then Some(MuscleGain)
    else if raw == "Healthy Eating" then Some(HealthyEating)
    else None
  }

  /** Every case is read back from its raw value, so the raw values of the
      cases of each enum are pairwise distinct. */
  lemma RawValuesRoundTrip(u: UnitSystem, g: Gender, a: ActivityLevel, n: NutritionGoal)
    ensures UnitSystemFromRaw(UnitSystemRaw(u)) == Some(u)
    ensures GenderFromRaw(GenderRaw(g)) == Some(g)
    ensures ActivityLevelFromRaw(ActivityLevelRaw(a)) == Some(a)
    ensures NutritionGoalFromRaw(NutritionGoalRaw(n)) == Some(n)
  {
  }

  // ---------------------------------------------------------------------
  // Construction

  const DefaultName: string := "New User"

  /** The stored name: an empty name is replaced by "New User". */
  function ResolvedName(name: string): (r: string)
    ensures r != ""
    ensures name != "" ==> r == name
    ensures name == "" ==> r == DefaultName
  {
    if name == "" then DefaultName else name
  }

  /** The state of a user, as one value. */
  datatype Profile = Profile(
    id: Uuid, name: string, age: int, weight: real, height: real,
    gender: Gender, activityLevel: ActivityLevel, nutritionGoal: NutritionGoal,
    preferredUnits: UnitSystem)

  /** What the constructor demands; it aborts otherwise. */
  predicate ValidMeasurements(age: int, weight: real, height: real) {
    age > 0 && weight > 0.0 && height > 0.0
  }

  // ---------------------------------------------------------------------
  // Imperial updates

  const CmPerFoot: real := 30.48
  const CmPerInch: real := 2.54
  const PoundsPerKg: real := 2.20462

  /** Inches are clamped into 0..11 before use. */
  function ClampInches(inches: int): (c: int)
    ensures 0 <= c <= 11
    ensures 0 <= inches <= 11 ==> c == inches
    ensures inches < 0 ==> c == 0
    ensures inches > 11 ==> c == 11
  {
    if inches < 0 then 0 else if inches > 11 then 11 else inches
  }

  /** The height in centimetres for `feet` and `inches`. */
  function HeightCm(feet: int, inches: int): (cm: real)
    ensures (feet as real) * CmPerFoot <= cm <= (feet as real) * CmPerFoot + 11.0 * CmPerInch
  {
    (feet as real) * CmPerFoot + (ClampInches(inches) as real) * CmPerInch
  }

  /** The height is the length of the clamped total in inches, so it is
      positive exactly when that total is. */
  lemma HeightIsTotalInches(feet: int, inches: int)
    ensures HeightCm(feet, inches) == ((12 * feet + ClampInches(inches)) as real) * CmPerInch
    ensures HeightCm(feet, inches) > 0.0 <==> 12 * feet + ClampInches(inches) > 0
  {
    var total := 12 * feet + ClampInches(inches);
    assert (feet as real) * CmPerFoot == ((12 * feet) as real) * CmPerInch;
    assert ((12 * feet) as real) + (ClampInches(inches) as real) == total as real;
  }

  /** Inches beyond 0..11 do not carry into feet: they are clamped. */
  lemma InchesDoNotCarry(feet: int)
    ensures HeightCm(feet, 12) == HeightCm(feet, 11)
    ensures HeightCm(feet, 12) < HeightCm(feet + 1, 0)
    ensures HeightCm(feet, -1) == HeightCm(feet, 0)
  {
  }

  /** The weight in kilograms for a weight in pounds. */
  function WeightKg(pounds: real): (kg: real)
    ensures kg * PoundsPerKg == pounds
  {
    pounds / PoundsPerKg
  }

  /** Reading the weight back in pounds gives what was stored, and it is
      positive exactly when the pounds were. */
  lemma WeightRoundTrip(pounds: real)
    ensures WeightKg(pounds) * PoundsPerKg == pounds
    ensures WeightKg(pounds) > 0.0 <==> pounds > 0.0
  {
  }

  /** A user profile. In the Swift struct `weight` and `height` are
      `private(set)`, so only `updateWeight` and `updateHeight` change them;
      here they are plain fields, and `UpdateWeight` and `UpdateHeight` are
      the methods that model those two. */
  class User {
    const id: Uuid
    var name: string
    var age: int
    var weight: real
    var height: real
    var gender: Gender
    var activityLevel: ActivityLevel
    var nutritionGoal: NutritionGoal
    var preferredUnits: UnitSystem

    /** The constructor's guards: age, weight and height positive. */
    predicate Valid()
      reads this
    {
      ValidMeasurements(age, weight, height)
    }

    function Snapshot(): (p: Profile)
      reads this
      ensures p.id == id && p.name == name && p.weight == weight && p.height == height
    {
      Profile(id, name, age, weight, height, gender, activityLevel, nutritionGoal, preferredUnits)
    }

    /** The weight in pounds. */
    function WeightInPounds(): (lb: real)
      reads this
      ensures lb > 0.0 <==> weight > 0.0
    {
      weight * PoundsPerKg
    }

    constructor(
      id: Uuid, name: string, age: int, weight: real, height: real,
      gender: Gender, activityLevel: ActivityLevel, nutritionGoal: NutritionGoal,
      preferredUnits: UnitSystem := Imperial)
      requires ValidMeasurements(age, weight, height)
      ensures Valid()
      ensures Snapshot() == Profile(
        id, ResolvedName(name), age, weight, height, gender, activityLevel, nutritionGoal, preferredUnits)
    {
      this.id := id;
      this.name := ResolvedName(name);
      this.age := age;
      this.weight := weight;
      this.height := height;
      this.gender := gender;
      this.activityLevel := activityLevel;
      this.nutritionGoal := nutritionGoal;
      this.preferredUnits := preferredUnits;
    }

    /** Sets the height from feet and clamped inches; nothing else changes.
        The constructor's invariant is kept only when the clamped total is
        positive: it is not re-checked. */
    method UpdateHeight(feet: int, inches: int)
      modifies this
      ensures Snapshot() == old(Snapshot()).(height := HeightCm(feet, inches))
      ensures old(Valid()) ==> (Valid() <==> 12 * feet + ClampInches(inches) > 0)
    {
      HeightIsTotalInches(feet, inches);
      height := (feet as real) * CmPerFoot + (ClampInches(inches) as real) * CmPerInch;
    }

    /** Sets the weight from pounds; nothing else changes.  The weight read
        back in pounds is the argument. */
    method UpdateWeight(pounds: real)
      modifies this
      ensures Snapshot() == old(Snapshot()).(weight := WeightKg(pounds))
      ensures WeightInPounds() == pounds
      ensures old(Valid()) ==> (Valid() <==> pounds > 0.0)
    {
      WeightRoundTrip(pounds);
      weight := pounds / PoundsPerKg;
    }
  }
}
