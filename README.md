# lethimcook in Dafny

A verified model of the core of *lethimcook*, a small library of cooking
units. The model covers five pieces:

- **Unit registry** (`measure/units.py`). Module `Units`. A closed table maps
  unit aliases to a category (volume, weight, temperature, count). Linear
  categories also carry a positive factor to the base unit. It also has
  `normalize_unit` (lower-case, then strip) and `get_unit_type`.
- **Conversion engine** (`lethimcook/converter.py`). Modules `Converter`,
  `ConverterFacts` and `ConverterExamples`. `convert` normalizes both units,
  resolves their categories and rejects a mismatch. Counts pass through.
  Volume and weight scale through the base unit. Temperature pivots through
  Celsius. Every value is an exact `real`. For reference, the model has an
  independent absolute scale, `Quantity` (the base unit, or kelvin for
  temperature). `convert` is proved to preserve that quantity.
- **Natural-language requests** (`lethimcook/natural.py`). Modules `Text`,
  `Patterns`, `Natural`, `NaturalParsing`, `NaturalRequests` and
  `NaturalExamples`.
  - The request is lower-cased and stripped.
  - The three regular expressions are tried in order, each as a hand-written
    matcher with Python `re.match` semantics. A match is anchored at the
    start but not at the end. The number token is `\d+\.?\d*`. The first
    phrase is lazy and the last is greedy.
  - Each matcher is proved to return exactly the match that the backtracking
    order makes first, among all valid placements.
  - The number token is read as an exact decimal. The phrases are stripped
    and the conversion is handed to `convert`.
- **Dict recipe scaling** (`measure/recipe.py`). Modules `Values`,
  `MeasureRecipe`, `MeasureRecipeFacts` and `MeasureRecipeExamples`. A recipe
  is a map from keys to JSON-like values. The method `ScaleRecipe` follows
  the source's two loops: it copies the extra keys, then scales each
  ingredient into a new list. It is proved equal to the function `Scaled`,
  which states the checks and the result.
- **Typed recipe scaling** (`lethimcook/recipe.py`). Modules `TypedRecipe`,
  `TypedRecipeFacts` and `TypedRecipeExamples`. `Ingredient` and `Recipe`
  are datatypes. The servings constraint is checked on construction. The
  method `ScaleRecipe` is the source's loop and is proved equal to `Scaled`.

`Errors` models the exceptions as one datatype with their messages.
`Wrappers` holds `Option` and `Result`.

Where the description of the library and its code differ, the model follows
the code:

- **Parse-failure message.** The message echoes the lower-cased, stripped
  request, not the text as given. `text` is rebound at
  `lethimcook/natural.py:33` before the message is built at 65-68.
- **Converter's unit tables.** `lethimcook/converter.py` imports
  `lethimcook.units`, which is not part of this model. Its tables are taken
  to be those of `measure/units.py`.

## Model

| member | source | states |
|---|---|---|
| Units.NormalizeUnitIsNormal | measure/units.py:135-137 | a normalized unit has no upper-case letter and no whitespace at either end |
| Units.NormalizeUnitIdempotent | measure/units.py:135-137 | normalizing a normalized unit changes nothing |
| Units.GetUnitType | measure/units.py:140-145 | fails exactly when the normalized unit is not a table key, and then with "Unknown unit" carrying the unit as passed; otherwise returns the table's category for the normalized unit |
| Units.GetUnitTypeNormalized | measure/units.py:142 | a unit and its normal form have the same category, and one is known exactly when the other is |
| Units.RegistryConsistent | measure/units.py:23-132 | a unit has a conversion factor exactly when it has a category other than temperature |
| Units.FactorsPositive | measure/units.py:23-72 | every conversion factor is positive, and every count unit's factor is 1 |
| Units.TemperatureUnits | measure/units.py:118-123 | the temperature units are exactly fahrenheit, f, celsius, c, kelvin and k |
| Units.BaseUnitsRegistered | measure/units.py:14-72 | each base unit is registered with its own category, and the linear base units have factor 1 |
| Units.RegistryKeysNormalized | measure/units.py:23-132 | every table key is already in normal form, so each can be looked up |
| Converter.QuantityInjective | lethimcook/converter.py:48-76 | a reading in a given unit is determined by the quantity it denotes |
| Converter.TemperatureConversionCorrect | lethimcook/converter.py:54-76 | the Celsius pivot between two temperature units succeeds and keeps the absolute temperature |
| Converter.LinearConversionCorrect | lethimcook/converter.py:48-51 | scaling through the base unit keeps the quantity, and the divisor is positive |
| Converter.CountConversionCorrect | lethimcook/converter.py:44-45 | passing a count through unchanged keeps the quantity |
| Converter.Convert | lethimcook/converter.py:11-51 | succeeds exactly when both normalized units are registered with the same category, and then keeps the quantity; an unknown source unit is reported before an unknown target; a category mismatch names both categories |
| ConverterFacts.ConvertIdentity | lethimcook/converter.py:48-76 | converting a registered unit to itself returns the value, on the linear and the temperature paths alike |
| ConverterFacts.ConvertNormalizes | lethimcook/converter.py:26-27 | a conversion, and any error it gives, depends only on the units' normal forms |
| ConverterFacts.ConvertRoundTrip | lethimcook/converter.py:48-76 | converting there and back returns the original value exactly |
| ConverterFacts.ConvertCompose | lethimcook/converter.py:48-76 | converting a to b and then b to c equals converting a to c, for units with the same category |
| ConverterFacts.CountPassthrough | lethimcook/converter.py:44-45 | between two count units the value is returned unchanged |
| ConverterFacts.ConvertFailsExactly | lethimcook/converter.py:34-37 | between two registered units, conversion fails exactly when the categories differ, and then with both category names |
| ConverterFacts.ConvertLinearKeys | lethimcook/converter.py:48-51 | between two table keys with the same linear category, the result is value times one factor divided by the other |
| ConverterFacts.ConvertTemperatureKeys | lethimcook/converter.py:40-41 | between two temperature keys, the result is the temperature pivot's |
| ConverterFacts.TemperatureGuardsUnreachable | lethimcook/converter.py:40-76 | once both units are temperature units, convert succeeds, so neither "Unknown temperature unit" branch can be reached |
| ConverterExamples.CupsToMilliliters | tests/test_converter.py:10-12 | 2 cups are 473.176 ml |
| ConverterExamples.TeaspoonsToTablespoon | tests/test_converter.py:14-16 | 3 tsp are within 0.01 of 1 tbsp |
| ConverterExamples.GallonToLiters | tests/test_converter.py:18-20 | 1 gallon is 3.78541 l |
| ConverterExamples.FluidOuncesToMilliliters | tests/test_converter.py:22-24 | 8 fl oz are 236.588 ml |
| ConverterExamples.SameUnit | tests/test_converter.py:26-28 | 5 cup to cup is 5 |
| ConverterExamples.PoundsAndOuncesToGrams | tests/test_converter.py:34-40 | 1 pound and 16 oz are both 453.592 g |
| ConverterExamples.KilogramToPounds | tests/test_converter.py:42-44 | 1 kg is within 0.01 of 2.205 lb |
| ConverterExamples.GramsToOunces | tests/test_converter.py:46-48 | 100 g are within 0.01 of 3.527 oz |
| ConverterExamples.FahrenheitToCelsius | tests/test_converter.py:54-62 | 32 F is 0 C, 212 F is 100 C, and 350 F is within 0.1 of 176.67 C |
| ConverterExamples.CelsiusToFahrenheit | tests/test_converter.py:64-69 | 0 C is 32 F and 100 C is 212 F |
| ConverterExamples.CelsiusAndKelvin | tests/test_converter.py:71-77 | 0 C is 273.15 K and 273.15 K is 0 C |
| ConverterExamples.CountToItem | tests/test_converter.py:83-85 | 5 count is 5 item |
| ConverterExamples.MismatchedCategoriesFail | tests/test_converter.py:91-101 | cups to grams and celsius to grams fail as incompatible, naming the categories |
| ConverterExamples.UnknownUnitsFail | tests/test_converter.py:95-97 | blorg to ml fails as an unknown unit, and the source unit is reported first |
| ConverterExamples.TeaspoonAliasesAgree | tests/test_converter.py:107-110 | tsp and teaspoon give the same result |
| ConverterExamples.PoundAliasesAgree | tests/test_converter.py:112-117 | lb, lbs and pound give the same result |
| ConverterExamples.CaseInsensitive | tests/test_converter.py:119-122 | CUP to ML and cup to ml give the same result |
| Errors.UnknownUnitWords | lethimcook/converter.py:30-31 | the unknown-unit message contains "Unknown unit" and the unit |
| Errors.IncompatibleUnitsWords | lethimcook/converter.py:34-37 | the mismatch message contains "Cannot convert between" and both category names |
| Errors.UnparsableWords | lethimcook/natural.py:65-68 | the parse-failure message contains "Could not parse" and the request |
| Errors.MissingKeyWords | measure/recipe.py:28-31 | the missing-key message names the key |
| Errors.ServingsMessageWords | measure/recipe.py:33-37 | the dict scaler's two messages for servings that are not positive contain "positive" |
| Errors.ServingsConstraintWords | lethimcook/recipe.py:18 | the servings field's constraint message contains "greater than 0" |
| Patterns.NumberEndIsLongest | lethimcook/natural.py:36-56 | the greedy number scan finds a token exactly when one exists, and then the longest |
| Patterns.NumberTokenShape | lethimcook/natural.py:36-56 | a number token starts with a digit and holds only digits and at most one point: no sign, no exponent |
| Patterns.NumberEndBeforeSpace | lethimcook/natural.py:36-56 | a number token followed by whitespace is the one the scan takes |
| Patterns.Pattern1IsFirst | lethimcook/natural.py:36-37 | the matcher's result is a valid placement of pattern 1, and every valid placement makes it succeed and does not come before its result in backtracking order |
| Patterns.Pattern2IsFirst | lethimcook/natural.py:46-47 | likewise for pattern 2 |
| Patterns.Pattern3IsFirst | lethimcook/natural.py:56-57 | likewise for pattern 3 |
| Patterns.WordedRequestsSkipPattern1 | lethimcook/natural.py:36-37 | text starting with "convert" or "how" has no valid placement of pattern 1 |
| Natural.NatTextDigits | lethimcook/natural.py:10 | `str` of a non-negative int is a non-empty string of digits that reads back as the int |
| Natural.FormatWholeNumber | lethimcook/natural.py:7-11 | a whole non-negative value prints without a decimal point, as a number token that reads back as the value |
| Natural.FormatNegativeWholeNumber | lethimcook/natural.py:7-11 | a whole negative value prints as a minus sign followed by its magnitude |
| Natural.ParseRequestTriesInOrder | lethimcook/natural.py:35-63 | pattern 2 is consulted only when pattern 1 has no valid placement, pattern 3 only when neither has; the request comes from the first that matches; there is no request exactly when no pattern matches |
| Natural.ConvertNaturalNormalizes | lethimcook/natural.py:33 | a request and its lower-cased, stripped form get the same answer |
| Natural.ConvertNaturalSucceeds | lethimcook/natural.py:39-43 | a reply carries exactly the number and unit phrases the patterns read from the normalized text; its units are stripped; its result is what convert gives, denoting the same quantity as the requested value |
| Natural.ReplyOf | lethimcook/natural.py:39-43 | a request that parses and converts is answered with the parsed number and units and the converted value |
| Natural.ErrorOf | lethimcook/natural.py:42 | a request that parses but does not convert fails with convert's error, passed on unchanged |
| Natural.UnparsableOf | lethimcook/natural.py:65-68 | a normalized request that matches no pattern is unparsable, and the error carries it |
| Natural.ConvertNaturalUnparsable | lethimcook/natural.py:65-68 | the request is reported unparsable, with its normalized text, exactly when no pattern matches that text |
| NaturalParsing.ToLayoutRequest | lethimcook/natural.py:36-41 | "number words to word" asks for that number of the words, in the word |
| NaturalParsing.ConvertLayoutRequest | lethimcook/natural.py:46-51 | "convert number words to word" does the same, by pattern 2 |
| NaturalParsing.HowManyLayoutRequest | lethimcook/natural.py:56-61 | "how many words in number word" asks for the number of the word in the words: the phrase roles are swapped |
| NaturalParsing.NoPatternStart | lethimcook/natural.py:36-63 | text starting with neither a digit nor "convert" nor "how" matches no pattern |
| NaturalRequests.PrintedValues | lethimcook/natural.py:7-11 | 2.0 prints as "2", 350.0 as "350", and 1.5 as `str(1.5)` |
| NaturalRequests.CupsRequest | tests/test_natural.py:10-14 | "2 cups to ml" reads as 2 of cups in ml |
| NaturalRequests.FluidOunceRequest | tests/test_natural.py:44-47 | "5 fluid ounce to ml" reads the two-word unit "fluid ounce" |
| NaturalRequests.PoundRequest | tests/test_natural.py:16-20 | "convert 1 pound to grams" is read by pattern 2 |
| NaturalRequests.TeaspoonsRequest | tests/test_natural.py:22-25 | "how many ml in 3 teaspoons" reads as 3 teaspoons in ml |
| NaturalRequests.DecimalRequest | tests/test_natural.py:27-29 | "1.5 cups to ml" reads the value 1.5 |
| NaturalRequests.FahrenheitRequest | tests/test_natural.py:31-35 | "350 fahrenheit to celsius" reads as 350 fahrenheit in celsius |
| NaturalRequests.BlorgRequest | tests/test_natural.py:61-63 | "2 blorg to ml" parses, its unit unknown |
| NaturalExamples.CupsReply | tests/test_natural.py:10-14 | "2 cups to ml" is 473.176 ml |
| NaturalExamples.PoundReply | tests/test_natural.py:16-20 | "convert 1 pound to grams" is 453.592 grams |
| NaturalExamples.TeaspoonsReply | tests/test_natural.py:22-25 | "how many ml in 3 teaspoons" is 3 teaspoons as 14.78676 ml |
| NaturalExamples.DecimalReply | tests/test_natural.py:27-29 | "1.5 cups to ml" is 354.882 ml |
| NaturalExamples.FahrenheitReply | tests/test_natural.py:31-35 | "350 fahrenheit to celsius" is 530/3 degrees Celsius |
| NaturalExamples.SameLowerCase | lethimcook/natural.py:33 | requests with the same lower-case form get the same answer |
| NaturalExamples.UpperCaseReply | tests/test_natural.py:37-42 | "2 CUPS to ML" is 473.176 ml too |
| NaturalExamples.FluidOunceReply | tests/test_natural.py:44-47 | "5 fluid ounce to ml" is 147.8675 ml |
| NaturalExamples.GibberishReply | tests/test_natural.py:53-55 | "this is gibberish" is unparsable, and the message carries it |
| NaturalExamples.MissingValueReply | tests/test_natural.py:57-59 | "cups to ml" is unparsable |
| NaturalExamples.BlorgReply | tests/test_natural.py:61-63 | "2 blorg to ml" fails with the unknown unit blorg, passed on from convert |
| MeasureRecipe.ScaleIngredientSpec | measure/recipe.py:54-57 | a scaled ingredient dict keeps its keys and every other entry; its amount is multiplied; a dict without an amount is copied as it is; it fails only on an amount that is not a number |
| MeasureRecipe.ScaleAllSpec | measure/recipe.py:53-57 | the ingredient list scales exactly when every ingredient does, and then has the same length and order, each one scaled |
| MeasureRecipe.ScaleAllFirstFailure | measure/recipe.py:53-57 | the first ingredient that fails gives the whole list's error |
| MeasureRecipe.ScaleRecipe | measure/recipe.py:6-59 | the two loops build exactly the checked, rebuilt recipe Scaled describes, or raise its error |
| MeasureRecipeFacts.ScaledRejects | measure/recipe.py:28-37 | in this order: a missing servings key, then a missing ingredients key, each reported by name; servings that are not a number; original servings that are not positive (even when the new count is not positive either); new servings that are not positive; each with its exact error, the servings ones saying "positive" |
| MeasureRecipeFacts.ScaledSucceeds | measure/recipe.py:28-57 | a recipe scales exactly when it passes the checks and every ingredient scales |
| MeasureRecipeFacts.ScaledShape | measure/recipe.py:42-50 | the result has the same keys, servings set to the new count, every other recipe key copied, and an ingredient list of the same length |
| MeasureRecipeFacts.ScaledAmounts | measure/recipe.py:39-56 | each ingredient keeps its keys and other entries, and an amount becomes amount times new over original servings |
| MeasureRecipeFacts.ScaleIngredientTwice | measure/recipe.py:55-56 | scaling an ingredient twice is scaling it once by the product |
| MeasureRecipeFacts.ScaleIngredientByOne | measure/recipe.py:54-56 | scaling by 1 gives the ingredient back |
| MeasureRecipeFacts.ScaleAllPointwise | measure/recipe.py:53-57 | lists whose ingredients scale alike scale alike |
| MeasureRecipeFacts.ScaledTwice | measure/recipe.py:39-57 | scaling a scaled recipe to n is scaling the original to n |
| MeasureRecipeFacts.ScaledToOwnServings | measure/recipe.py:39-59 | scaling a recipe to the servings it has gives it back |
| MeasureRecipeFacts.ScaledRoundTrip | measure/recipe.py:39-59 | scaling to any count and back to the original servings restores the recipe |
| MeasureRecipeExamples.DoubleRecipe | tests/test_recipe.py:10-23 | 2 cups of flour and 1 tsp of salt for four become 4 cups and 2 tsp for eight |
| MeasureRecipeExamples.FractionalScaling | tests/test_recipe.py:51-61 | 3 cups for four are 2.25 cups for three |
| MeasureRecipeExamples.IngredientWithoutAmount | tests/test_recipe.py:81-92 | an ingredient without an amount is copied |
| MeasureRecipeExamples.AdditionalFieldsKept | tests/test_recipe.py:94-106 | the name and preparation time are copied |
| MeasureRecipeExamples.EmptyIngredients | tests/test_recipe.py:108-116 | an empty ingredient list stays empty |
| MeasureRecipeExamples.RejectedRecipes | tests/test_recipe.py:122-152 | missing servings, missing ingredients, zero servings and negative new servings give their errors |
| TypedRecipe.NewRecipeSpec | lethimcook/recipe.py:16-30 | a recipe is constructed exactly when its servings are positive, with the given parts; otherwise it is rejected by the servings field's greater-than-0 constraint |
| TypedRecipe.ScaleIngredientSpec | lethimcook/recipe.py:64-67 | scaling keeps unit, name, note and extra fields; a missing amount stays missing; an amount is multiplied by the factor |
| TypedRecipe.ScaleAllSpec | lethimcook/recipe.py:62-67 | the scaled list has the same length and order, each ingredient scaled |
| TypedRecipe.ScaleRecipe | lethimcook/recipe.py:33-74 | the loop and rebuild give exactly the result Scaled describes: the new-servings check, then each ingredient scaled by new over old |
| TypedRecipeFacts.ScaledValid | lethimcook/recipe.py:56-74 | a valid recipe scales exactly when the new count is positive, rejects other counts with "New servings must be positive", and scales into a valid recipe |
| TypedRecipeFacts.ScaledFields | lethimcook/recipe.py:59-74 | the result has the new servings, the same name, preparation time, extra fields and number of ingredients; each ingredient keeps its other fields and has its amount times new over old |
| TypedRecipeFacts.ScaleIngredientTwice | lethimcook/recipe.py:65-66 | scaling an ingredient twice is scaling it once by the product |
| TypedRecipeFacts.ScaleAllTwice | lethimcook/recipe.py:62-67 | scaling a list twice is scaling it once by the product |
| TypedRecipeFacts.ScaleIngredientByOne | lethimcook/recipe.py:65-66 | scaling by 1 keeps the ingredient |
| TypedRecipeFacts.ScaleAllByOne | lethimcook/recipe.py:62-67 | scaling a list by 1 keeps it |
| TypedRecipeFacts.ScaledTwice | lethimcook/recipe.py:56-74 | scaling a scaled recipe to n is scaling the original to n |
| TypedRecipeFacts.ScaledToOwnServings | lethimcook/recipe.py:56-74 | scaling a recipe to its own servings gives it back |
| TypedRecipeFacts.ScaledRoundTrip | lethimcook/recipe.py:56-74 | scaling to any positive count and back restores the recipe |
| TypedRecipeExamples.DocumentedExample | lethimcook/recipe.py:44-54 | 2 cups of flour and 1 tsp of salt for four become 4 cups and 2 tsp for eight |
| TypedRecipeExamples.IngredientWithoutAmount | lethimcook/recipe.py:65 | an ingredient without an amount is kept |
| TypedRecipeExamples.NegativeServings | lethimcook/recipe.py:56-57 | new servings of -2 are rejected |

## Left out

- Floating point: every value is an exact `real`. The model has no IEEE-754 rounding, so the test tolerances hold exactly or as real bounds. The `{result:.2f}` rendering and Python's `str` of a fractional float are parameters of `Natural.Render` and `Natural.FormatNumber`. Only the whole-number branch of `_format_number` is modelled concretely. There is no overflow either: a number token beyond the double range makes `float` return infinity, and `_format_number` then raises `OverflowError` at `int(value)` (`lethimcook/natural.py:9`). In the model the same request converts normally.
- Natural.Render: the returned sentence is defined but no contract is stated on it, because its two float renderings are parameters.
- Regular expressions: there is no general engine. Only the three patterns of `lethimcook/natural.py` are written out as matchers.
- Unicode: lower-casing, `\s`, `\d` and `[a-z]` are restricted to ASCII.
- Error text: the `ValueError` messages the library raises itself are modelled in full. The texts of `TypeError` and `AttributeError` are not, and neither are pydantic's. `TypeMismatch` names only the failing operation (`copy`, `[]`, `iter`, `<=`, `*`), and its message is not Python's.
- Dict key order: Python dicts keep insertion order; the model's maps are unordered.
- Python numbers: `int` and `float` are both `Num` of a real in the dict recipe. `bool` is left out. Servings are compared as reals.
- MeasureRecipe.Ingredients: a value of `recipe["ingredients"]` that is not a list is modelled only by outcome. An empty dict or string gives no ingredients. A non-empty one raises, because its items are strings without `copy`. Any other value raises as not iterable.
- Pydantic: the model has no type coercion, no `model_dump`, and no check that extra fields have JSON types. `Ingredient` and `Recipe` are plain datatypes, and together with `ValidRecipe` they stand for a validated object.
- TypedRecipe.NewRecipeSpec: pydantic enforces `Field(gt=0)` (`lethimcook/recipe.py:18`) before the validator runs, so the validator's `raise ValueError("Servings must be positive")` cannot be reached. The model reports the constraint's error. Its message is only the "Input should be greater than 0" part of the `ValidationError` text: the model, field and error-type details pydantic adds are not modelled.
- TypedRecipe.Scaled: a recipe whose servings are 0 (possible only by assignment after validation) gives division by zero, as Python's `/` does.
- TypedRecipe.Amount: `float | None` is its own two-case datatype rather than an `Option`.
- Object identity and mutation: both scalers build new values. The model works on values, so input non-mutation holds trivially and is not stated separately.
- `lethimcook/units.py`, `measure/converter.py` and `measure/natural.py` are not part of this model.
- `cli.py`, `setup.py` and the package `__init__.py` files are argument parsing, printing, exit codes and packaging, all of which are I/O.
