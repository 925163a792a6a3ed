/** The typed scaler on the example of its documentation. */
module TypedRecipeExamples {
  import opened Wrappers
  import opened TypedRecipe
  import opened Errors
  import opened TypedRecipeFacts

  /** Four servings of 2 cups of flour and 1 tsp of salt, scaled to eight:
      4 cups of flour and 2 tsp of salt. */
  lemma DocumentedExample()
    ensures var flour := Ingredient(Amount(2.0), "cups", "flour", None, map[]);
            var salt := Ingredient(Amount(1.0), "tsp", "salt", None, map[]);
            var r := Scaled(Recipe(4, [flour, salt], None, None, map[]), 8);
            r.Success? && r.value.servings == 8 &&
            r.value.ingredients == [flour.(amount := Amount(4.0)), salt.(amount := Amount(2.0))]
  {
    var flour := Ingredient(Amount(2.0), "cups", "flour", None, map[]);
    var salt := Ingredient(Amount(1.0), "tsp", "salt", None, map[]);
    var recipe := Recipe(4, [flour, salt], None, None, map[]);
    assert Factor(recipe, 8) == 2.0;
    ScaleAllSpec(recipe.ingredients, 2.0);
    ScaleIngredientSpec(flour, 2.0);
    ScaleIngredientSpec(salt, 2.0);
  }

  /** An ingredient without an amount is kept as it is. */
  lemma IngredientWithoutAmount()
    ensures var salt := Ingredient(NoAmount, "pinch", "salt", None, map[]);
            var r := Scaled(Recipe(4, [salt], None, None, map[]), 8);
            r.Success? && r.value.ingredients == [salt]
  {
    var salt := Ingredient(NoAmount, "pinch", "salt", None, map[]);
    var recipe := Recipe(4, [salt], None, None, map[]);
    ScaleAllSpec(recipe.ingredients, Factor(recipe, 8));
  }

  /** A count that is not positive is rejected before anything else. */
  lemma NegativeServings()
    ensures Scaled(Recipe(4, [], None, None, map[]), -2) == Failure(NewServingsNotPositive)
  {
  }
}
