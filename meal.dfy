/** A suggested meal (`Meal` in Models/Meal.swift): its memberwise
    initialiser, the case-insensitive `type` classifier and its `Codable`
    form, whose key for `name` is "meal". */
module Meals {
  import opened Wrappers
  import opened Coding

  datatype MealType = Breakfast | Lunch | Dinner | Snacks | Other

  /** The `String` raw value of each `MealType` case. */
  function RawValue(t: MealType): string {
    match t
    case Breakfast => "Breakfast"
    case Lunch => "Lunch"
    case Dinner => "Dinner"
    case Snacks => "Snacks"
    case Other => "Other"
  }

  /** `MealType(rawValue:)`: exact, case-sensitive match on the raw value. */
  function MealTypeFromRaw(s: string): (r: Option<MealType>)
    ensures r.Some? ==> RawValue(r.value) == s
  {
    if s == "Breakfast" then Some(Breakfast)
    else if s == "Lunch" then Some(Lunch)
    else if s == "Dinner" then Some(Dinner)
    else if s == "Snacks" then Some(Snacks)
    else if s == "Other" then Some(Other)
    else None
  }

  lemma RawValueRoundTrip(t: MealType)
    ensures MealTypeFromRaw(RawValue(t)) == Some(t)
  {
  }

  /** Lower-casing of one character. Only the ASCII letters are mapped. */
  function LowerChar(c: char): char {
    if 'A' <= c <= 'Z' then (c as int + 32) as char else c
  }

  /** `String.lowercased()`, character by character. */
  function Lowercased(s: string): (r: string)
    ensures |r| == |s|
    ensures forall k :: 0 <= k < |s| ==> r[k] == LowerChar(s[k])
  {
    seq(|s|, k requires 0 <= k < |s| => LowerChar(s[k]))
  }

  /** Two names that differ only in the case of their letters. */
  predicate EqualIgnoringCase(a: string, b: string) {
    |a| == |b| && forall k :: 0 <= k < |a| ==> LowerChar(a[k]) == LowerChar(b[k])
  }

  lemma EqualIgnoringCaseIsLowercasedEquality(a: string, b: string)
    ensures EqualIgnoringCase(a, b) <==> Lowercased(a) == Lowercased(b)
  {
    if Lowercased(a) == Lowercased(b) {
      assert |a| == |b|;
      forall k | 0 <= k < |a| ensures LowerChar(a[k]) == LowerChar(b[k]) {
        assert Lowercased(a)[k] == Lowercased(b)[k];
      }
    }
  }

  /** The lower-case spelling of each classified meal type. */
  lemma LoweredRawValues()
    ensures Lowercased("Breakfast") == "breakfast"
    ensures Lowercased("Lunch") == "lunch"
    ensures Lowercased("Dinner") == "dinner"
    ensures Lowercased("Snacks") == "snacks"
  {
    assert Lowercased("Breakfast") == "breakfast" by {
      var r := Lowercased("Breakfast");
      assert r[0] == 'b';
    }
    assert Lowercased("Lunch") == "lunch" by {
      var r := Lowercased("Lunch");
      assert r[0] == 'l';
    }
    assert Lowercased("Dinner") == "dinner" by {
      var r := Lowercased("Dinner");
      assert r[0] == 'd';
    }
    assert Lowercased("Snacks") == "snacks" by {
      var r := Lowercased("Snacks");
      assert r[0] == 's';
    }
  }

  datatype Meal = Meal(
    id: Uuid,
    name: string,
    suggestions: seq<string>,
    calories: Option<int>,
    proteins: Option<real>,
    carbohydrates: Option<real>,
    fats: Option<real>,
    ingredients: Option<seq<string>>,
    instructions: Option<string>)
  {
    /** The `type` property: `name.lowercased()` matched against the four
        known meal names; anything else is `.other`. */
    function Type(): (t: MealType)
      ensures t != Other ==> EqualIgnoringCase(name, RawValue(t))
      ensures t == Other <==>
        forall u :: u != Other ==> !EqualIgnoringCase(name, RawValue(u))
    {
      LoweredRawValues();
      EqualIgnoringCaseIsLowercasedEquality(name, "Breakfast");
      EqualIgnoringCaseIsLowercasedEquality(name, "Lunch");
      EqualIgnoringCaseIsLowercasedEquality(name, "Dinner");
      EqualIgnoringCaseIsLowercasedEquality(name, "Snacks");
      match Lowercased(name)
      case "breakfast" => Breakfast
      case "lunch" => Lunch
      case "dinner" => Dinner
      case "snacks" => Snacks
      case _ => Other
    }
  }

  /** `Meal(id:name:suggestions:)`: the optional details keep their default
      nil. */
  function NewMeal(id: Uuid, name: string, suggestions: seq<string>): (m: Meal)
    ensures m.id == id && m.name == name && m.suggestions == suggestions
    ensures m.calories == None && m.proteins == None && m.carbohydrates == None
    ensures m.fats == None && m.ingredients == None && m.instructions == None
  {
    Meal(id, name, suggestions, None, None, None, None, None, None)
  }

  /** A meal named after a type's raw value has that type, whatever its
      other fields. */
  lemma TypeOfRawValue(t: MealType, m: Meal)
    requires m.name == RawValue(t)
    ensures m.Type() == t
  {
    if t == Other {
      forall u | u != Other ensures !EqualIgnoringCase(m.name, RawValue(u)) {
        assert LowerChar(m.name[0]) == 'o';
        assert LowerChar(RawValue(u)[0]) != 'o';
      }
    }
  }

  /** Names that differ only in letter case classify alike. */
  lemma TypeIgnoresCase(m: Meal, n: Meal)
    requires EqualIgnoringCase(m.name, n.name)
    ensures m.Type() == n.Type()
  {
    EqualIgnoringCaseIsLowercasedEquality(m.name, n.name);
  }

  /** The coding keys of `Meal`. */
  datatype MealField =
    | IdField | NameField | SuggestionsField | CaloriesField | ProteinsField
    | CarbohydratesField | FatsField | IngredientsField | InstructionsField

  function MealKey(f: MealField): string {
    match f
    case IdField => "id"
    case NameField => "meal"
    case SuggestionsField => "suggestions"
    case CaloriesField => "calories"
    case ProteinsField => "proteins"
    case CarbohydratesField => "carbohydrates"
    case FatsField => "fats"
    case IngredientsField => "ingredients"
    case InstructionsField => "instructions"
  }

  const AllMealFields: set<MealField> := {
    IdField, NameField, SuggestionsField, CaloriesField, ProteinsField,
    CarbohydratesField, FatsField, IngredientsField, InstructionsField}

  /** Distinct fields are written under distinct keys. */
  lemma MealKeysDistinct(f: MealField, g: MealField)
    requires f != g
    ensures MealKey(f) != MealKey(g)
  {
    if |MealKey(f)| == |MealKey(g)| {
      assert MealKey(f)[0] != MealKey(g)[0];
    }
  }

  /** What `encode(to:)` writes for one field: required fields always,
      optional details only when they are present (`encodeIfPresent`). */
  function FieldWire(m: Meal, f: MealField): Option<Wire> {
    match f
    case IdField => Some(WUuid(m.id))
    case NameField => Some(WString(m.name))
    case SuggestionsField => Some(StringList(m.suggestions))
    case CaloriesField => if m.calories.Some? then Some(WInt(m.calories.value)) else None
    case ProteinsField => if m.proteins.Some? then Some(WReal(m.proteins.value)) else None
    case CarbohydratesField => if m.carbohydrates.Some? then Some(WReal(m.carbohydrates.value)) else None
    case FatsField => if m.fats.Some? then Some(WReal(m.fats.value)) else None
    case IngredientsField => if m.ingredients.Some? then Some(StringList(m.ingredients.value)) else None
    case InstructionsField => if m.instructions.Some? then Some(WString(m.instructions.value)) else None
  }

  /** The synthesised `encode(to:)`: each field under its coding key. */
  function EncodeMeal(m: Meal): (c: map<string, Wire>)
    ensures forall f :: MealKey(f) in c <==> FieldWire(m, f).Some?
    ensures forall f :: MealKey(f) in c ==> c[MealKey(f)] == FieldWire(m, f).value
  {
    forall f, g | f != g ensures MealKey(f) != MealKey(g) {
      MealKeysDistinct(f, g);
    }
    map f | f in AllMealFields && FieldWire(m, f).Some? :: MealKey(f) := FieldWire(m, f).value
  }

  /** Nothing but the coding keys is written. */
  lemma EncodeMealOnlyFieldKeys(m: Meal, k: string)
    requires k in EncodeMeal(m)
    ensures exists f :: MealKey(f) == k && FieldWire(m, f).Some?
  {
  }

  /** The name travels under "meal", and nothing is written under "name". */
  lemma NameWireKey(m: Meal)
    ensures EncodeMeal(m)["meal"] == WString(m.name)
    ensures "name" !in EncodeMeal(m)
  {
    assert MealKey(NameField) == "meal";
    forall f ensures MealKey(f) != "name" {
      assert |MealKey(f)| == 4 ==> MealKey(f)[0] != 'n';
    }
  }

  /** The synthesised `init(from:)`: `decode` for the required fields,
      `decodeIfPresent` for the optional details. */
  function DecodeMeal(c: map<string, Wire>): (r: Result<Meal, DecodeError>)
    ensures MealKey(IdField) !in c ==> r == Err(KeyNotFound(MealKey(IdField)))
    ensures r.Ok? ==> MealKey(NameField) in c && c[MealKey(NameField)] == WString(r.value.name)
  {
    var id :- Required(c, MealKey(IdField), UuidOf);
    var name :- Required(c, MealKey(NameField), StringOf);
    var suggestions :- Required(c, MealKey(SuggestionsField), StringsOf);
    var calories :- Optional(c, MealKey(CaloriesField), IntOf);
    var proteins :- Optional(c, MealKey(ProteinsField), RealOf);
    var carbohydrates :- Optional(c, MealKey(CarbohydratesField), RealOf);
    var fats :- Optional(c, MealKey(FatsField), RealOf);
    var ingredients :- Optional(c, MealKey(IngredientsField), StringsOf);
    var instructions :- Optional(c, MealKey(InstructionsField), StringOf);
    Ok(Meal(id, name, suggestions, calories, proteins, carbohydrates, fats, ingredients, instructions))
  }

  /** `c` holds each field of `m` that is present, under its key, and no
      key for an absent one. */
  predicate Carries(c: map<string, Wire>, m: Meal) {
    forall f :: (MealKey(f) in c <==> FieldWire(m, f).Some?)
      && (FieldWire(m, f).Some? ==> c[MealKey(f)] == FieldWire(m, f).value)
  }

  lemma CarriedRequiredDecode(c: map<string, Wire>, m: Meal)
    requires Carries(c, m)
    ensures Required(c, MealKey(IdField), UuidOf) == Ok(m.id)
    ensures Required(c, MealKey(NameField), StringOf) == Ok(m.name)
    ensures Required(c, MealKey(SuggestionsField), StringsOf) == Ok(m.suggestions)
  {
    assert FieldWire(m, IdField).Some? && FieldWire(m, NameField).Some?;
    assert FieldWire(m, SuggestionsField).Some?;
    StringListRoundTrip(m.suggestions);
  }

  lemma CarriedNumbersDecode(c: map<string, Wire>, m: Meal)
    requires Carries(c, m)
    ensures Optional(c, MealKey(CaloriesField), IntOf) == Ok(m.calories)
    ensures Optional(c, MealKey(ProteinsField), RealOf) == Ok(m.proteins)
    ensures Optional(c, MealKey(CarbohydratesField), RealOf) == Ok(m.carbohydrates)
    ensures Optional(c, MealKey(FatsField), RealOf) == Ok(m.fats)
  {
    assert MealKey(CaloriesField) in c <==> FieldWire(m, CaloriesField).Some?;
    assert MealKey(ProteinsField) in c <==> FieldWire(m, ProteinsField).Some?;
    assert MealKey(CarbohydratesField) in c <==> FieldWire(m, CarbohydratesField).Some?;
    assert MealKey(FatsField) in c <==> FieldWire(m, FatsField).Some?;
  }

  lemma CarriedTextDecodes(c: map<string, Wire>, m: Meal)
    requires Carries(c, m)
    ensures Optional(c, MealKey(IngredientsField), StringsOf) == Ok(m.ingredients)
    ensures Optional(c, MealKey(InstructionsField), StringOf) == Ok(m.instructions)
  {
    assert MealKey(IngredientsField) in c <==> FieldWire(m, IngredientsField).Some?;
    assert MealKey(InstructionsField) in c <==> FieldWire(m, InstructionsField).Some?;
    if m.ingredients.Some? {
      StringListRoundTrip(m.ingredients.value);
    }
  }

  /** A container that carries a meal's fields decodes to that meal. */
  lemma CarriedMealDecodes(c: map<string, Wire>, m: Meal)
    requires Carries(c, m)
    ensures DecodeMeal(c) == Ok(m)
  {
    CarriedRequiredDecode(c, m);
    CarriedNumbersDecode(c, m);
    CarriedTextDecodes(c, m);
  }

  /** `encode(to:)` writes what `Carries` describes. */
  lemma EncodeCarries(m: Meal)
    ensures Carries(EncodeMeal(m), m)
  {
  }

  /** Decoding what `encode(to:)` wrote gives back the same meal. */
  lemma MealRoundTrip(m: Meal)
    ensures DecodeMeal(EncodeMeal(m)) == Ok(m)
  {
    EncodeCarries(m);
    CarriedMealDecodes(EncodeMeal(m), m);
  }
}
