/** The unit registry of measure/units.py: the closed table of unit
    aliases, their categories and, for the linear categories, their factor
    to the category's base unit. */
module Units {
  import opened Wrappers
  import opened Text
  import opened Errors

  /** `UnitType`, a string enum. */
  datatype UnitType = Volume | Weight | Temperature | Count

  /** The enum's string value, which is what `f"{unit_type}"` prints. */
  function TypeName(t: UnitType): string {
    match t
    case Volume => "volume"
    case Weight => "weight"
    case Temperature => "temperature"
    case Count => "count"
  }

  /** `BASE_UNITS` */
  const BaseUnits: map<UnitType, string> := map[
    Volume := "ml",
    Weight := "g",
    Temperature := "celsius",
    Count := "count"
  ]

  /** `CONVERSIONS`, the factor that takes a unit to its category's base
      unit: `Some(factor)` for a key of the dict, `None` otherwise. The dict
      literal is written as a lookup by cases, one case per group of
      consecutive keys that share a factor, in the literal's order. */
  function Conversions(unit: string): Option<real> {
    match unit
    // Volume (to milliliters)
    case "tsp" | "teaspoon" | "teaspoons" => Some(4.92892)
    case "tbsp" | "tablespoon" | "tablespoons" => Some(14.7868)
    case "floz" | "fl oz" | "fluid ounce" | "fluid ounces" => Some(29.5735)
    case "cup" | "cups" => Some(236.588)
    case "pint" | "pints" => Some(473.176)
    case "quart" | "quarts" => Some(946.353)
    case "gallon" | "gallons" => Some(3785.41)
    case "ml" | "milliliter" | "milliliters" => Some(1.0)
    case "l" | "liter" | "liters" => Some(1000.0)
    // Weight (to grams)
    case "oz" | "ounce" | "ounces" => Some(28.3495)
    case "lb" | "lbs" | "pound" | "pounds" => Some(453.592)
    case "g" | "gram" | "grams" => Some(1.0)
    case "kg" | "kilogram" | "kilograms" => Some(1000.0)
    // Count (dimensionless)
    case "count" | "item" | "items" | "piece" | "pieces" | "whole" => Some(1.0)
    case _ => None
  }

  /** `UNIT_TYPES`, the category of a unit: `Some(type)` for a key of the
      dict, `None` otherwise; written like Conversions. */
  function UnitTypes(unit: string): Option<UnitType> {
    match unit
    case "tsp" | "teaspoon" | "teaspoons" | "tbsp" | "tablespoon" | "tablespoons"
       | "floz" | "fl oz" | "fluid ounce" | "fluid ounces" | "cup" | "cups"
       | "pint" | "pints" | "quart" | "quarts" | "gallon" | "gallons"
       | "ml" | "milliliter" | "milliliters" | "l" | "liter" | "liters" => Some(Volume)
    case "oz" | "ounce" | "ounces" | "lb" | "lbs" | "pound" | "pounds"
       | "g" | "gram" | "grams" | "kg" | "kilogram" | "kilograms" => Some(Weight)
    case "fahrenheit" | "f" | "celsius" | "c" | "kelvin" | "k" => Some(Temperature)
    case "count" | "item" | "items" | "piece" | "pieces" | "whole" => Some(Count)
    case _ => None
  }

  /** The units `UNIT_TYPES` registers. */
  predicate IsRegistered(unit: string) {
    UnitTypes(unit).Some?
  }

  /** `normalize_unit`: `unit.lower().strip()`. */
  function NormalizeUnit(unit: string): string {
    Strip(ToLower(unit))
  }

  /** A normalized unit has no upper-case letter and no surrounding
      whitespace. */
  lemma NormalizeUnitIsNormal(unit: string)
    ensures IsLower(NormalizeUnit(unit)) && IsStripped(NormalizeUnit(unit))
  {
    StripIsStripped(ToLower(unit));
    ToLowerIsLower(unit);
    StripKeepsLower(ToLower(unit));
  }

  /** Normalizing twice is normalizing once. */
  lemma NormalizeUnitIdempotent(unit: string)
    ensures NormalizeUnit(NormalizeUnit(unit)) == NormalizeUnit(unit)
  {
    var r := NormalizeUnit(unit);
    NormalizeUnitIsNormal(unit);
    ToLowerOfLower(r);
    StripOfStripped(r);
  }

  /** `get_unit_type`: the category of the normalized unit, or "Unknown
      unit" naming the unit as it was passed. */
  function GetUnitType(unit: string): (r: Result<UnitType, Error>)
    ensures r.Failure? <==> !IsRegistered(NormalizeUnit(unit))
    ensures r.Failure? ==> r.error == UnknownUnit(unit)
    ensures r.Success? ==> Some(r.value) == UnitTypes(NormalizeUnit(unit))
  {
    var normalized := NormalizeUnit(unit);
    if !IsRegistered(normalized) then Failure(UnknownUnit(unit))
    else Success(UnitTypes(normalized).value)
  }

  /** Lookup is insensitive to case and padding: a unit and its normal form
      resolve to the same category, and fail together. */
  lemma GetUnitTypeNormalized(unit: string)
    ensures GetUnitType(unit).Success? <==> GetUnitType(NormalizeUnit(unit)).Success?
    ensures GetUnitType(unit).Success? ==>
              GetUnitType(unit).value == GetUnitType(NormalizeUnit(unit)).value
  {
    NormalizeUnitIdempotent(unit);
  }

  /** The two tables describe one vocabulary: a unit has a factor exactly
      when it is registered with a category other than temperature. */
  lemma RegistryConsistent(unit: string)
    ensures Conversions(unit).Some? <==>
            UnitTypes(unit).Some? && UnitTypes(unit).value != Temperature
  {
  }

  /** Every factor is positive, and every count unit has factor 1. */
  lemma FactorsPositive(unit: string)
    requires Conversions(unit).Some?
    ensures Conversions(unit).value > 0.0
    ensures UnitTypes(unit) == Some(Count) ==> Conversions(unit) == Some(1.0)
  {
  }

  /** The temperature units are exactly these six spellings. */
  lemma TemperatureUnits(unit: string)
    ensures UnitTypes(unit) == Some(Temperature) <==>
            unit in {"fahrenheit", "f", "celsius", "c", "kelvin", "k"}
  {
  }

  /** Each base unit is registered under its own category, and the linear
      base units have factor 1. */
  lemma BaseUnitsRegistered(t: UnitType)
    ensures UnitTypes(BaseUnits[t]) == Some(t)
    ensures t != Temperature ==> Conversions(BaseUnits[t]) == Some(1.0)
  {
  }

  /** Units whose spelling is already lower-case and stripped are their own
      normal form; this is how the examples below resolve literal names. */
  lemma NormalizeUnitOfNormal(unit: string)
    requires IsLower(unit) && IsStripped(unit)
    ensures NormalizeUnit(unit) == unit
  {
    ToLowerOfLower(unit);
    StripOfStripped(unit);
  }

  /** Every key of the tables is already in normal form, so every entry is
      reachable through `normalize_unit`. The keys are checked in groups. */
  lemma RegistryKeysNormalized(unit: string)
    requires IsRegistered(unit)
    ensures NormalizeUnit(unit) == unit
  {
    match unit
    case "tsp" | "teaspoon" | "teaspoons" | "tbsp" | "tablespoon" | "tablespoons" =>
      VolumeKeysNormalA(unit);
    case "floz" | "fl oz" | "fluid ounce" | "fluid ounces" | "cup" | "cups" =>
      VolumeKeysNormalB(unit);
    case "pint" | "pints" | "quart" | "quarts" | "gallon" | "gallons" =>
      VolumeKeysNormalC(unit);
    case "ml" | "milliliter" | "milliliters" | "l" | "liter" | "liters" =>
      VolumeKeysNormalD(unit);
    case "oz" | "ounce" | "ounces" | "lb" | "lbs" | "pound" | "pounds" =>
      WeightKeysNormalA(unit);
    case "g" | "gram" | "grams" | "kg" | "kilogram" | "kilograms" =>
      WeightKeysNormalB(unit);
    case "fahrenheit" | "f" | "celsius" | "c" | "kelvin" | "k" =>
      TemperatureKeysNormal(unit);
    case "count" | "item" | "items" | "piece" | "pieces" | "whole" =>
      CountKeysNormal(unit);
    case _ =>
      assert false;
  }

  lemma VolumeKeysNormalA(unit: string)
    requires unit in {"tsp", "teaspoon", "teaspoons", "tbsp", "tablespoon", "tablespoons"}
    ensures NormalizeUnit(unit) == unit
  {
    match unit
    case "tsp" => NormalizeUnitOfNormal("tsp");
    case "teaspoon" => NormalizeUnitOfNormal("teaspoon");
    case "teaspoons" => NormalizeUnitOfNormal("teaspoons");
    case "tbsp" => NormalizeUnitOfNormal("tbsp");
    case "tablespoon" => NormalizeUnitOfNormal("tablespoon");
    case "tablespoons" => NormalizeUnitOfNormal("tablespoons");
  }

  lemma VolumeKeysNormalB(unit: string)
    requires unit in {"floz", "fl oz", "fluid ounce", "fluid ounces", "cup", "cups"}
    ensures NormalizeUnit(unit) == unit
  {
    match unit
    case "floz" => NormalizeUnitOfNormal("floz");
    case "fl oz" => NormalizeUnitOfNormal("fl oz");
    case "fluid ounce" => NormalizeUnitOfNormal("fluid ounce");
    case "fluid ounces" => NormalizeUnitOfNormal("fluid ounces");
    case "cup" => NormalizeUnitOfNormal("cup");
    case "cups" => NormalizeUnitOfNormal("cups");
  }

  lemma VolumeKeysNormalC(unit: string)
    requires unit in {"pint", "pints", "quart", "quarts", "gallon", "gallons"}
    ensures NormalizeUnit(unit) == unit
  {
    match unit
    case "pint" => NormalizeUnitOfNormal("pint");
    case "pints" => NormalizeUnitOfNormal("pints");
    case "quart" => NormalizeUnitOfNormal("quart");
    case "quarts" => NormalizeUnitOfNormal("quarts");
    case "gallon" => NormalizeUnitOfNormal("gallon");
    case "gallons" => NormalizeUnitOfNormal("gallons");
  }

  lemma VolumeKeysNormalD(unit: string)
    requires unit in {"ml", "milliliter", "milliliters", "l", "liter", "liters"}
    ensures NormalizeUnit(unit) == unit
  {
    match unit
    case "ml" => NormalizeUnitOfNormal("ml");
    case "milliliter" => NormalizeUnitOfNormal("milliliter");
    case "milliliters" => NormalizeUnitOfNormal("milliliters");
    case "l" => NormalizeUnitOfNormal("l");
    case "liter" => NormalizeUnitOfNormal("liter");
    case "liters" => NormalizeUnitOfNormal("liters");
  }

  lemma WeightKeysNormalA(unit: string)
    requires unit in {"oz", "ounce", "ounces", "lb", "lbs", "pound", "pounds"}
    ensures NormalizeUnit(unit) == unit
  {
    match unit
    case "oz" => NormalizeUnitOfNormal("oz");
    case "ounce" => NormalizeUnitOfNormal("ounce");
    case "ounces" => NormalizeUnitOfNormal("ounces");
    case "lb" => NormalizeUnitOfNormal("lb");
    case "lbs" => NormalizeUnitOfNormal("lbs");
    case "pound" => NormalizeUnitOfNormal("pound");
    case "pounds" => NormalizeUnitOfNormal("pounds");
  }

  lemma WeightKeysNormalB(unit: string)
    requires unit in {"g", "gram", "grams", "kg", "kilogram", "kilograms"}
    ensures NormalizeUnit(unit) == unit
  {
    match unit
    case "g" => NormalizeUnitOfNormal("g");
    case "gram" => NormalizeUnitOfNormal("gram");
    case "grams" => NormalizeUnitOfNormal("grams");
    case "kg" => NormalizeUnitOfNormal("kg");
    case "kilogram" => NormalizeUnitOfNormal("kilogram");
    case "kilograms" => NormalizeUnitOfNormal("kilograms");
  }

  lemma TemperatureKeysNormal(unit: string)
    requires unit in {"fahrenheit", "f", "celsius", "c", "kelvin", "k"}
    ensures NormalizeUnit(unit) == unit
  {
    match unit
    case "fahrenheit" => NormalizeUnitOfNormal("fahrenheit");
    case "f" => NormalizeUnitOfNormal("f");
    case "celsius" => NormalizeUnitOfNormal("celsius");
    case "c" => NormalizeUnitOfNormal("c");
    case "kelvin" => NormalizeUnitOfNormal("kelvin");
    case "k" => NormalizeUnitOfNormal("k");
  }

  lemma CountKeysNormal(unit: string)
    requires unit in {"count", "item", "items", "piece", "pieces", "whole"}
    ensures NormalizeUnit(unit) == unit
  {
    match unit
    case "count" => NormalizeUnitOfNormal("count");
    case "item" => NormalizeUnitOfNormal("item");
    case "items" => NormalizeUnitOfNormal("items");
    case "piece" => NormalizeUnitOfNormal("piece");
    case "pieces" => NormalizeUnitOfNormal("pieces");
    case "whole" => NormalizeUnitOfNormal("whole");
  }
}
