/** The conversion engine of lethimcook/converter.py. */
module Converter {
  import opened Wrappers
  import opened Errors
  import opened Units

  /** `_convert_temperature`: to Celsius by the source scale, then from
      Celsius to the target scale. The two `case _` arms raise. */
  function ConvertTemperature(value: real, fromUnit: string, toUnit: string): Result<real, Error> {
    var celsius :=
      match fromUnit
      case "celsius" | "c" => Success(value)
      case "fahrenheit" | "f" => Success((value - 32.0) * 5.0 / 9.0)
      case "kelvin" | "k" => Success(value - 273.15)
      case _ => Failure(UnknownTemperatureUnit(fromUnit));
    if celsius.Failure? then celsius
    else
      match toUnit
      case "celsius" | "c" => Success(celsius.value)
      case "fahrenheit" | "f" => Success(celsius.value * 9.0 / 5.0 + 32.0)
      case "kelvin" | "k" => Success(celsius.value + 273.15)
      case _ => Failure(UnknownTemperatureUnit(toUnit))
  }

  /** The quantity a reading denotes, on one absolute scale per category:
      millilitres, grams, items, and kelvins. The temperature scales are
      given by their usual definitions (absolute zero is 0 K, -273.15 °C and
      -459.67 °F; a kelvin is a Celsius degree and 9/5 Fahrenheit degrees),
      independently of the pivot formulas the engine uses. */
  function Quantity(value: real, unit: string): real
    requires IsRegistered(unit)
  {
    match UnitTypes(unit).value
    case Temperature =>
      if unit == "celsius" || unit == "c" then value + 273.15
      else if unit == "fahrenheit" || unit == "f" then (value + 459.67) * 5.0 / 9.0
      else value
    case _ =>
      RegistryConsistent(unit);
      value * Conversions(unit).value
  }

  /** A reading is determined by the quantity it denotes. */
  lemma QuantityInjective(v: real, w: real, unit: string)
    requires IsRegistered(unit)
    requires Quantity(v, unit) == Quantity(w, unit)
    ensures v == w
  {
    if UnitTypes(unit).value != Temperature {
      RegistryConsistent(unit);
      FactorsPositive(unit);
    }
  }

  /** Both stages of `_convert_temperature` are total on the six registered
      spellings, and the pivot through Celsius keeps the absolute
      temperature. */
  lemma TemperatureConversionCorrect(value: real, fromUnit: string, toUnit: string)
    requires UnitTypes(fromUnit) == Some(Temperature) && UnitTypes(toUnit) == Some(Temperature)
    ensures ConvertTemperature(value, fromUnit, toUnit).Success?
    ensures Quantity(ConvertTemperature(value, fromUnit, toUnit).value, toUnit) == Quantity(value, fromUnit)
  {
    TemperatureUnits(fromUnit);
    TemperatureUnits(toUnit);
  }

  /** Scaling through the base unit keeps the quantity. */
  lemma LinearConversionCorrect(value: real, fromUnit: string, toUnit: string)
    requires UnitTypes(fromUnit).Some? && UnitTypes(fromUnit) == UnitTypes(toUnit)
    requires UnitTypes(fromUnit).value != Temperature
    ensures Conversions(fromUnit).Some? && Conversions(toUnit).Some? && Conversions(toUnit).value > 0.0
    ensures Quantity(value * Conversions(fromUnit).value / Conversions(toUnit).value, toUnit) == Quantity(value, fromUnit)
  {
    RegistryConsistent(fromUnit);
    RegistryConsistent(toUnit);
    FactorsPositive(toUnit);
  }

  /** Counting units all have factor one, so passing the value through keeps
      the quantity. */
  lemma CountConversionCorrect(value: real, fromUnit: string, toUnit: string)
    requires UnitTypes(fromUnit) == Some(Count) && UnitTypes(toUnit) == Some(Count)
    ensures Quantity(value, toUnit) == Quantity(value, fromUnit)
  {
    RegistryConsistent(fromUnit);
    RegistryConsistent(toUnit);
    FactorsPositive(fromUnit);
    FactorsPositive(toUnit);
  }

  /** `convert`: normalize both units, resolve their categories (the source
      unit first), reject a mismatch, then pass counts through, pivot
      temperatures through Celsius, and scale volume and weight through the
      base unit. */
  function Convert(value: real, fromUnit: string, toUnit: string): (r: Result<real, Error>)
    ensures r.Success? <==>
              IsRegistered(NormalizeUnit(fromUnit)) && IsRegistered(NormalizeUnit(toUnit)) &&
              UnitTypes(NormalizeUnit(fromUnit)) == UnitTypes(NormalizeUnit(toUnit))
    ensures r.Success? ==>
              Quantity(r.value, NormalizeUnit(toUnit)) == Quantity(value, NormalizeUnit(fromUnit))
    ensures !IsRegistered(NormalizeUnit(fromUnit)) ==>
              r == Failure(UnknownUnit(NormalizeUnit(fromUnit)))
    ensures IsRegistered(NormalizeUnit(fromUnit)) && !IsRegistered(NormalizeUnit(toUnit)) ==>
              r == Failure(UnknownUnit(NormalizeUnit(toUnit)))
    ensures IsRegistered(NormalizeUnit(fromUnit)) && IsRegistered(NormalizeUnit(toUnit)) &&
            UnitTypes(NormalizeUnit(fromUnit)) != UnitTypes(NormalizeUnit(toUnit)) ==>
              r == Failure(IncompatibleUnits(TypeName(UnitTypes(NormalizeUnit(fromUnit)).value),
                                             TypeName(UnitTypes(NormalizeUnit(toUnit)).value)))
  {
    NormalizeUnitIdempotent(fromUnit);
    NormalizeUnitIdempotent(toUnit);
    var fromUnit := NormalizeUnit(fromUnit);
    var toUnit := NormalizeUnit(toUnit);
    var fromType := GetUnitType(fromUnit);
    var toType := GetUnitType(toUnit);
    if fromType.Failure? then Failure(fromType.error)
    else if toType.Failure? then Failure(toType.error)
    else if fromType.value != toType.value then
      Failure(IncompatibleUnits(TypeName(fromType.value), TypeName(toType.value)))
    else if fromType.value == Temperature then
      TemperatureConversionCorrect(value, fromUnit, toUnit);
      ConvertTemperature(value, fromUnit, toUnit)
    else if fromType.value == Count then
      CountConversionCorrect(value, fromUnit, toUnit);
      Success(value)
    else
      LinearConversionCorrect(value, fromUnit, toUnit);
      var baseValue := value * Conversions(fromUnit).value;
      Success(baseValue / Conversions(toUnit).value)
  }
}

/** What `convert` promises across calls, and the values the test-suite
    pins down. */
module ConverterFacts {
  import opened Wrappers
  import opened Text
  import opened Errors
  import opened Units
  import opened Converter

  /** Converting a unit to itself returns the value unchanged. */
  lemma ConvertIdentity(value: real, unit: string)
    requires IsRegistered(NormalizeUnit(unit))
    ensures Convert(value, unit, unit) == Success(value)
  {
    QuantityInjective(Convert(value, unit, unit).value, value, NormalizeUnit(unit));
  }

  /** Units are matched in normal form only: the result, and every error
      text, is that of the normalized call. */
  lemma ConvertNormalizes(value: real, fromUnit: string, toUnit: string)
    ensures Convert(value, fromUnit, toUnit) ==
            Convert(value, NormalizeUnit(fromUnit), NormalizeUnit(toUnit))
  {
    var f, t := NormalizeUnit(fromUnit), NormalizeUnit(toUnit);
    NormalizeUnitIdempotent(fromUnit);
    NormalizeUnitIdempotent(toUnit);
    var r, s := Convert(value, fromUnit, toUnit), Convert(value, f, t);
    if r.Success? {
      QuantityInjective(r.value, s.value, t);
    }
  }

  /** Converting there and back returns the original value, exactly. */
  lemma ConvertRoundTrip(value: real, fromUnit: string, toUnit: string)
    requires Convert(value, fromUnit, toUnit).Success?
    ensures Convert(Convert(value, fromUnit, toUnit).value, toUnit, fromUnit) == Success(value)
  {
    var f, t := NormalizeUnit(fromUnit), NormalizeUnit(toUnit);
    var w := Convert(value, fromUnit, toUnit).value;
    assert IsRegistered(f) && IsRegistered(t) && UnitTypes(f) == UnitTypes(t);
    assert Quantity(w, t) == Quantity(value, f);
    var back := Convert(w, toUnit, fromUnit);
    assert back.Success? && Quantity(back.value, f) == Quantity(w, t);
    QuantityInjective(back.value, value, f);
  }

  /** Converting through an intermediate unit of the same category is
      converting directly. */
  lemma ConvertCompose(value: real, a: string, b: string, c: string)
    requires Convert(value, a, b).Success?
    requires IsRegistered(NormalizeUnit(c))
    requires UnitTypes(NormalizeUnit(c)) == UnitTypes(NormalizeUnit(a))
    ensures Convert(Convert(value, a, b).value, b, c) == Convert(value, a, c)
  {
    var na, nb, nc := NormalizeUnit(a), NormalizeUnit(b), NormalizeUnit(c);
    var w := Convert(value, a, b).value;
    assert IsRegistered(na) && IsRegistered(nb) && UnitTypes(na) == UnitTypes(nb);
    assert Quantity(w, nb) == Quantity(value, na);
    var viaB := Convert(w, b, c);
    assert viaB.Success? && Quantity(viaB.value, nc) == Quantity(w, nb);
    var direct := Convert(value, a, c);
    assert direct.Success? && Quantity(direct.value, nc) == Quantity(value, na);
    QuantityInjective(viaB.value, direct.value, nc);
  }

  /** Count units are interchangeable: the value passes through. */
  lemma CountPassthrough(value: real, fromUnit: string, toUnit: string)
    requires UnitTypes(NormalizeUnit(fromUnit)) == Some(Count)
    requires UnitTypes(NormalizeUnit(toUnit)) == Some(Count)
    ensures Convert(value, fromUnit, toUnit) == Success(value)
  {
    var f, t := NormalizeUnit(fromUnit), NormalizeUnit(toUnit);
    CountConversionCorrect(value, f, t);
    var r := Convert(value, fromUnit, toUnit);
    assert r.Success? && Quantity(r.value, t) == Quantity(value, f);
    QuantityInjective(r.value, value, t);
  }

  /** Between registered units, conversion fails exactly when the
      categories differ, and then names the two categories. */
  lemma ConvertFailsExactly(value: real, fromUnit: string, toUnit: string)
    requires IsRegistered(NormalizeUnit(fromUnit)) && IsRegistered(NormalizeUnit(toUnit))
    ensures Convert(value, fromUnit, toUnit).Failure? <==>
            UnitTypes(NormalizeUnit(fromUnit)) != UnitTypes(NormalizeUnit(toUnit))
    ensures Convert(value, fromUnit, toUnit).Failure? ==>
            Convert(value, fromUnit, toUnit).error ==
              IncompatibleUnits(TypeName(UnitTypes(NormalizeUnit(fromUnit)).value),
                                TypeName(UnitTypes(NormalizeUnit(toUnit)).value))
  {
    if UnitTypes(NormalizeUnit(fromUnit)) == UnitTypes(NormalizeUnit(toUnit)) {
      assert Convert(value, fromUnit, toUnit).Success?;
    } else {
      assert Convert(value, fromUnit, toUnit).Failure?;
    }
  }

  /** On spellings that are keys of the tables, a volume or weight
      conversion is the ratio of the two factors. */
  lemma ConvertLinearKeys(value: real, fromUnit: string, toUnit: string)
    requires IsRegistered(fromUnit) && UnitTypes(fromUnit) == UnitTypes(toUnit)
    requires UnitTypes(fromUnit) != Some(Temperature)
    ensures Conversions(fromUnit).Some? && Conversions(toUnit).Some?
    ensures Convert(value, fromUnit, toUnit).Success?
    ensures Convert(value, fromUnit, toUnit).value ==
            value * Conversions(fromUnit).value / Conversions(toUnit).value
  {
    RegistryKeysNormalized(fromUnit);
    RegistryKeysNormalized(toUnit);
    LinearConversionCorrect(value, fromUnit, toUnit);
    QuantityInjective(Convert(value, fromUnit, toUnit).value,
                      value * Conversions(fromUnit).value / Conversions(toUnit).value, toUnit);
  }

  /** On spellings that are keys of the tables, a temperature conversion
      is `_convert_temperature` on those spellings. */
  lemma ConvertTemperatureKeys(value: real, fromUnit: string, toUnit: string)
    requires UnitTypes(fromUnit) == Some(Temperature) && UnitTypes(toUnit) == Some(Temperature)
    ensures ConvertTemperature(value, fromUnit, toUnit).Success?
    ensures Convert(value, fromUnit, toUnit).Success?
    ensures Convert(value, fromUnit, toUnit).value == ConvertTemperature(value, fromUnit, toUnit).value
  {
    RegistryKeysNormalized(fromUnit);
    RegistryKeysNormalized(toUnit);
    TemperatureGuardsUnreachable(value, fromUnit, toUnit);
  }

  /** The two `case _` guards of `_convert_temperature` cannot fire when it
      is reached from `convert`. */
  lemma TemperatureGuardsUnreachable(value: real, fromUnit: string, toUnit: string)
    requires UnitTypes(NormalizeUnit(fromUnit)) == Some(Temperature)
    requires UnitTypes(NormalizeUnit(toUnit)) == Some(Temperature)
    ensures Convert(value, fromUnit, toUnit) ==
            ConvertTemperature(value, NormalizeUnit(fromUnit), NormalizeUnit(toUnit))
    ensures Convert(value, fromUnit, toUnit).Success?
  {
    NormalizeUnitIdempotent(fromUnit);
    NormalizeUnitIdempotent(toUnit);
  }
}

/** Conversions the test-suite checks, resolved from the general lemmas
    above. */
module ConverterExamples {
  import opened Wrappers
  import opened Text
  import opened Errors
  import opened Units
  import opened Converter
  import opened ConverterFacts

  /** The table entries the examples use. */
  lemma VolumeEntries()
    ensures UnitTypes("cups") == Some(Volume) && Conversions("cups") == Some(236.588)
    ensures UnitTypes("cup") == Some(Volume) && Conversions("cup") == Some(236.588)
    ensures UnitTypes("ml") == Some(Volume) && Conversions("ml") == Some(1.0)
    ensures UnitTypes("tsp") == Some(Volume) && Conversions("tsp") == Some(4.92892)
    ensures UnitTypes("teaspoon") == Some(Volume) && Conversions("teaspoon") == Some(4.92892)
    ensures UnitTypes("tbsp") == Some(Volume) && Conversions("tbsp") == Some(14.7868)
    ensures UnitTypes("gallon") == Some(Volume) && Conversions("gallon") == Some(3785.41)
    ensures UnitTypes("l") == Some(Volume) && Conversions("l") == Some(1000.0)
    ensures UnitTypes("fl oz") == Some(Volume) && Conversions("fl oz") == Some(29.5735)
  {
  }

  lemma WeightEntries()
    ensures UnitTypes("oz") == Some(Weight) && Conversions("oz") == Some(28.3495)
    ensures UnitTypes("g") == Some(Weight) && Conversions("g") == Some(1.0)
    ensures UnitTypes("grams") == Some(Weight) && Conversions("grams") == Some(1.0)
    ensures UnitTypes("kg") == Some(Weight) && Conversions("kg") == Some(1000.0)
    ensures UnitTypes("lb") == Some(Weight) && Conversions("lb") == Some(453.592)
    ensures UnitTypes("lbs") == Some(Weight) && Conversions("lbs") == Some(453.592)
    ensures UnitTypes("pound") == Some(Weight) && Conversions("pound") == Some(453.592)
  {
  }

  lemma OtherEntries()
    ensures UnitTypes("count") == Some(Count) && UnitTypes("item") == Some(Count)
    ensures UnitTypes("fahrenheit") == Some(Temperature) && UnitTypes("f") == Some(Temperature)
    ensures UnitTypes("celsius") == Some(Temperature) && UnitTypes("c") == Some(Temperature)
    ensures UnitTypes("kelvin") == Some(Temperature)
    ensures !IsRegistered("blorg") && !IsRegistered("zorp")
  {
  }

  lemma CupsToMilliliters()
    ensures Convert(2.0, "cups", "ml").Success?
    ensures Convert(2.0, "cups", "ml").value == 473.176
  {
    VolumeEntries();
    ConvertLinearKeys(2.0, "cups", "ml");
  }

  lemma TeaspoonsToTablespoon()
    ensures Convert(3.0, "tsp", "tbsp").Success?
    ensures 0.99 < Convert(3.0, "tsp", "tbsp").value < 1.01
  {
    VolumeEntries();
    ConvertLinearKeys(3.0, "tsp", "tbsp");
  }

  lemma GallonToLiters()
    ensures Convert(1.0, "gallon", "l").Success?
    ensures Convert(1.0, "gallon", "l").value == 3.78541
  {
    VolumeEntries();
    ConvertLinearKeys(1.0, "gallon", "l");
  }

  lemma FluidOuncesToMilliliters()
    ensures Convert(8.0, "fl oz", "ml").Success?
    ensures Convert(8.0, "fl oz", "ml").value == 236.588
  {
    VolumeEntries();
    ConvertLinearKeys(8.0, "fl oz", "ml");
  }

  lemma SameUnit()
    ensures Convert(5.0, "cup", "cup") == Success(5.0)
  {
    VolumeEntries();
    RegistryKeysNormalized("cup");
    ConvertIdentity(5.0, "cup");
  }

  lemma PoundsAndOuncesToGrams()
    ensures Convert(1.0, "pound", "g").Success?
    ensures Convert(1.0, "pound", "g").value == 453.592
    ensures Convert(16.0, "oz", "g").Success?
    ensures Convert(16.0, "oz", "g").value == 453.592
  {
    WeightEntries();
    ConvertLinearKeys(1.0, "pound", "g");
    ConvertLinearKeys(16.0, "oz", "g");
  }

  lemma KilogramToPounds()
    ensures Convert(1.0, "kg", "lb").Success?
    ensures 2.195 < Convert(1.0, "kg", "lb").value < 2.215
  {
    WeightEntries();
    ConvertLinearKeys(1.0, "kg", "lb");
  }

  lemma GramsToOunces()
    ensures Convert(100.0, "g", "oz").Success?
    ensures 3.517 < Convert(100.0, "g", "oz").value < 3.537
  {
    WeightEntries();
    ConvertLinearKeys(100.0, "g", "oz");
  }

  lemma FahrenheitToCelsius()
    ensures Convert(32.0, "fahrenheit", "celsius").Success?
    ensures Convert(32.0, "fahrenheit", "celsius").value == 0.0
    ensures Convert(212.0, "f", "c").Success?
    ensures Convert(212.0, "f", "c").value == 100.0
    ensures Convert(350.0, "f", "c").Success?
    ensures 176.57 < Convert(350.0, "f", "c").value < 176.77
  {
    OtherEntries();
    ConvertTemperatureKeys(32.0, "fahrenheit", "celsius");
    ConvertTemperatureKeys(212.0, "f", "c");
    ConvertTemperatureKeys(350.0, "f", "c");
  }

  lemma CelsiusToFahrenheit()
    ensures Convert(0.0, "celsius", "fahrenheit").Success?
    ensures Convert(0.0, "celsius", "fahrenheit").value == 32.0
    ensures Convert(100.0, "c", "f").Success?
    ensures Convert(100.0, "c", "f").value == 212.0
  {
    OtherEntries();
    ConvertTemperatureKeys(0.0, "celsius", "fahrenheit");
    ConvertTemperatureKeys(100.0, "c", "f");
  }

  lemma CelsiusAndKelvin()
    ensures Convert(0.0, "celsius", "kelvin").Success?
    ensures Convert(0.0, "celsius", "kelvin").value == 273.15
    ensures Convert(273.15, "kelvin", "celsius").Success?
    ensures Convert(273.15, "kelvin", "celsius").value == 0.0
  {
    OtherEntries();
    ConvertTemperatureKeys(0.0, "celsius", "kelvin");
    ConvertTemperatureKeys(273.15, "kelvin", "celsius");
  }

  lemma CountToItem()
    ensures Convert(5.0, "count", "item") == Success(5.0)
  {
    OtherEntries();
    RegistryKeysNormalized("count");
    RegistryKeysNormalized("item");
    CountPassthrough(5.0, "count", "item");
  }

  lemma MismatchedCategoriesFail()
    ensures Convert(1.0, "cups", "grams").Failure?
    ensures Convert(1.0, "cups", "grams").error == IncompatibleUnits("volume", "weight")
    ensures Convert(100.0, "celsius", "grams").Failure?
    ensures Convert(100.0, "celsius", "grams").error == IncompatibleUnits("temperature", "weight")
  {
    VolumeEntries();
    WeightEntries();
    OtherEntries();
    RegistryKeysNormalized("cups");
    RegistryKeysNormalized("grams");
    RegistryKeysNormalized("celsius");
  }

  /** An unknown source unit is reported even when the target is unknown
      too: the source is resolved first. */
  lemma UnknownUnitsFail()
    ensures Convert(1.0, "blorg", "ml").Failure?
    ensures Convert(1.0, "blorg", "ml").error == UnknownUnit("blorg")
    ensures Convert(1.0, "blorg", "zorp").Failure?
    ensures Convert(1.0, "blorg", "zorp").error == UnknownUnit("blorg")
    ensures Convert(1.0, "ml", "zorp").Failure?
    ensures Convert(1.0, "ml", "zorp").error == UnknownUnit("zorp")
  {
    VolumeEntries();
    OtherEntries();
    NormalizeUnitOfNormal("blorg");
    NormalizeUnitOfNormal("zorp");
    RegistryKeysNormalized("ml");
  }

  /** `tsp` and `teaspoon` are aliases: they give the same result for
      every value. */
  lemma TeaspoonAliasesAgree(value: real)
    ensures Convert(value, "tsp", "ml") == Convert(value, "teaspoon", "ml")
  {
    VolumeEntries();
    ConvertLinearKeys(value, "tsp", "ml");
    ConvertLinearKeys(value, "teaspoon", "ml");
  }

  /** `lb`, `lbs` and `pound` are aliases. */
  lemma PoundAliasesAgree(value: real)
    ensures Convert(value, "lb", "g") == Convert(value, "lbs", "g")
    ensures Convert(value, "lb", "g") == Convert(value, "pound", "g")
  {
    WeightEntries();
    ConvertLinearKeys(value, "lb", "g");
    ConvertLinearKeys(value, "lbs", "g");
    ConvertLinearKeys(value, "pound", "g");
  }

  /** Upper-case spellings convert like the lower-case ones. */
  lemma CaseInsensitive(value: real)
    ensures Convert(value, "CUP", "ML") == Convert(value, "cup", "ml")
  {
    assert ToLower("CUP") == "cup";
    assert ToLower("ML") == "ml";
    VolumeEntries();
    RegistryKeysNormalized("cup");
    RegistryKeysNormalized("ml");
    ConvertNormalizes(value, "CUP", "ML");
  }
}
