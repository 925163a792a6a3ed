/** The dict scaler on the recipes of its test-suite. */
module MeasureRecipeExamples {
  import opened Wrappers
  import opened Errors
  import opened Values
  import opened MeasureRecipe
  import opened MeasureRecipeFacts

  /** Four servings of 2 cups of flour and 1 tsp of salt, doubled. */
  lemma DoubleRecipe()
    ensures var flour := map["amount" := Num(2.0), "unit" := Str("cups"), "name" := Str("flour")];
            var salt := map["amount" := Num(1.0), "unit" := Str("tsp"), "name" := Str("salt")];
            var r := Scaled(map["servings" := Num(4.0), "ingredients" := List([Dict(flour), Dict(salt)])], 8);
            r.Success? && r.value["servings"] == Num(8.0) && r.value["ingredients"].List? &&
            |r.value["ingredients"].items| == 2 &&
            r.value["ingredients"].items[0] == Dict(flour["amount" := Num(4.0)]) &&
            r.value["ingredients"].items[1] == Dict(salt["amount" := Num(2.0)])
  {
    var flour := map["amount" := Num(2.0), "unit" := Str("cups"), "name" := Str("flour")];
    var salt := map["amount" := Num(1.0), "unit" := Str("tsp"), "name" := Str("salt")];
    var recipe := map["servings" := Num(4.0), "ingredients" := List([Dict(flour), Dict(salt)])];
    assert Factor(recipe, 8) == 2.0;
    ScaleIngredientSpec(Dict(flour), 2.0);
    ScaleIngredientSpec(Dict(salt), 2.0);
    ScaledSucceeds(recipe, 8);
    ScaledShape(recipe, 8);
  }

  /** 3 cups for four servings are 2.25 cups for three. */
  lemma FractionalScaling()
    ensures var flour := map["amount" := Num(3.0), "unit" := Str("cups"), "name" := Str("flour")];
            var r := Scaled(map["servings" := Num(4.0), "ingredients" := List([Dict(flour)])], 3);
            r.Success? && r.value["servings"] == Num(3.0) && r.value["ingredients"].List? &&
            |r.value["ingredients"].items| == 1 &&
            r.value["ingredients"].items[0] == Dict(flour["amount" := Num(2.25)])
  {
    var flour := map["amount" := Num(3.0), "unit" := Str("cups"), "name" := Str("flour")];
    var recipe := map["servings" := Num(4.0), "ingredients" := List([Dict(flour)])];
    assert Factor(recipe, 3) == 0.75;
    ScaleIngredientSpec(Dict(flour), 0.75);
    ScaledSucceeds(recipe, 3);
    ScaledShape(recipe, 3);
  }

  /** An ingredient without an amount is copied as it is. */
  lemma IngredientWithoutAmount()
    ensures var salt := map["unit" := Str("pinch"), "name" := Str("salt")];
            var r := Scaled(map["servings" := Num(4.0), "ingredients" := List([Dict(salt)])], 8);
            r.Success? && r.value["ingredients"] == List([Dict(salt)])
  {
    var salt := map["unit" := Str("pinch"), "name" := Str("salt")];
    var recipe := map["servings" := Num(4.0), "ingredients" := List([Dict(salt)])];
    ScaleIngredientSpec(Dict(salt), Factor(recipe, 8));
    ScaledSucceeds(recipe, 8);
    ScaledShape(recipe, 8);
  }

  /** The recipe's name and preparation time are copied. */
  lemma AdditionalFieldsKept()
    ensures var recipe := map["servings" := Num(4.0), "name" := Str("Chocolate Chip Cookies"),
                              "prep_time" := Str("15 minutes"), "ingredients" := List([])];
            var r := Scaled(recipe, 8);
            r.Success? && r.value["name"] == Str("Chocolate Chip Cookies") &&
            r.value["prep_time"] == Str("15 minutes")
  {
    var recipe := map["servings" := Num(4.0), "name" := Str("Chocolate Chip Cookies"),
                      "prep_time" := Str("15 minutes"), "ingredients" := List([])];
    ScaledSucceeds(recipe, 8);
    ScaledShape(recipe, 8);
  }

  /** An empty ingredient list stays empty. */
  lemma EmptyIngredients()
    ensures var r := Scaled(map["servings" := Num(4.0), "ingredients" := List([])], 8);
            r.Success? && r.value["servings"] == Num(8.0) && r.value["ingredients"] == List([])
  {
    var recipe := map["servings" := Num(4.0), "ingredients" := List([])];
    ScaledSucceeds(recipe, 8);
    ScaledShape(recipe, 8);
  }

  /** The four rejected recipes of the test-suite. */
  lemma RejectedRecipes()
    ensures Scaled(map["ingredients" := List([])], 8) == Failure(MissingKey("servings"))
    ensures Scaled(map["servings" := Num(4.0)], 8) == Failure(MissingKey("ingredients"))
    ensures Scaled(map["servings" := Num(0.0), "ingredients" := List([])], 4) == Failure(OriginalServingsNotPositive)
    ensures Scaled(map["servings" := Num(4.0), "ingredients" := List([])], -2) == Failure(NewServingsNotPositive)
  {
  }
}
