/** The typed recipe of lethimcook/recipe.py: `Ingredient` and `Recipe`
    models whose extra fields are kept, the servings validator, and
    `scale_recipe`, which builds a new recipe with the new servings and each
    present amount multiplied by new / original. */
module TypedRecipe {
  import opened Wrappers
  import opened Errors
  import opened Values

  /** `float | None`: an ingredient's amount, or none. (A datatype of its
      own rather than an Option, so that the amount is stored as a real.) */
  datatype Amount = NoAmount | Amount(value: real)

  /** An `Ingredient`: the declared fields, and the extra fields the model
      allows, by name. */
  datatype Ingredient = Ingredient(
    amount: Amount,
    unit: string,
    name: string,
    note: Option<string>,
    extra: map<string, Value>)

  /** A `Recipe`, with its extra fields by name. */
  datatype Recipe = Recipe(
    servings: int,
    ingredients: seq<Ingredient>,
    name: Option<string>,
    prepTime: Option<string>,
    extra: map<string, Value>)

  /** Extra fields never bear a declared field's name. */
  predicate ValidIngredient(i: Ingredient) {
    forall k :: k in i.extra ==> k != "amount" && k != "unit" && k != "name" && k != "note"
  }

  /** What a validated `Recipe` satisfies: `servings` is greater than 0. */
  predicate ValidRecipe(r: Recipe) {
    r.servings > 0 && ValidParts(r.ingredients, r.extra)
  }

  /** Well-named extra fields and valid ingredients. */
  predicate ValidParts(ingredients: seq<Ingredient>, extra: map<string, Value>) {
    (forall k :: k in extra ==> k != "servings" && k != "ingredients" && k != "name" && k != "prep_time") &&
    forall i :: 0 <= i < |ingredients| ==> ValidIngredient(ingredients[i])
  }

  /** Constructing a `Recipe`: the servings field's constraint `gt=0`
      rejects a count that is not positive. It is checked before the
      validator, whose own test of the same count never fails. */
  function NewRecipe(servings: int, ingredients: seq<Ingredient>, name: Option<string>,
                     prepTime: Option<string>, extra: map<string, Value>): Result<Recipe, Error>
  {
    if servings <= 0 then Failure(ServingsNotGreaterThanZero)
    else Success(Recipe(servings, ingredients, name, prepTime, extra))
  }

  /** A recipe is constructed exactly when its servings are positive, and it
      then holds the given fields; with well-named extras it is valid. */
  lemma NewRecipeSpec(servings: int, ingredients: seq<Ingredient>, name: Option<string>,
                      prepTime: Option<string>, extra: map<string, Value>)
    ensures NewRecipe(servings, ingredients, name, prepTime, extra).Success? <==> servings > 0
    ensures NewRecipe(servings, ingredients, name, prepTime, extra).Failure? ==>
              NewRecipe(servings, ingredients, name, prepTime, extra).error == ServingsNotGreaterThanZero &&
              Contains(Message(NewRecipe(servings, ingredients, name, prepTime, extra).error), "greater than 0")
    ensures match NewRecipe(servings, ingredients, name, prepTime, extra)
            case Success(r) =>
              r.servings == servings && r.ingredients == ingredients && r.name == name &&
              r.prepTime == prepTime && r.extra == extra &&
              (ValidParts(ingredients, extra) ==> ValidRecipe(r))
            case Failure(_) => true
  {
    ServingsConstraintWords();
  }

  /** One ingredient, its amount (if any) times the factor. */
  function ScaleIngredient(i: Ingredient, factor: real): Ingredient {
    if i.amount.Amount? then i.(amount := Amount(i.amount.value * factor)) else i
  }

  /** Scaling changes the amount only: a missing amount stays missing and a
      present one is multiplied by the factor. */
  lemma ScaleIngredientSpec(i: Ingredient, factor: real)
    ensures var r := ScaleIngredient(i, factor);
            r.unit == i.unit && r.name == i.name && r.note == i.note && r.extra == i.extra &&
            (i.amount.NoAmount? <==> r.amount.NoAmount?) &&
            (i.amount.Amount? ==> r.amount == Amount(i.amount.value * factor))
  {
  }

  /** The ingredients scaled one by one, in order. */
  function ScaleAll(items: seq<Ingredient>, factor: real): seq<Ingredient>
    decreases |items|
  {
    if items == [] then [] else ScaleAll(items[..|items| - 1], factor) + [ScaleIngredient(items[|items| - 1], factor)]
  }

  /** The scaled list has one scaled ingredient for each ingredient, in the
      same place. */
  lemma {:induction false} ScaleAllSpec(items: seq<Ingredient>, factor: real)
    ensures |ScaleAll(items, factor)| == |items|
    ensures forall k :: 0 <= k < |items| ==> ScaleAll(items, factor)[k] == ScaleIngredient(items[k], factor)
    decreases |items|
  {
    if items != [] {
      var init := items[..|items| - 1];
      ScaleAllSpec(init, factor);
      assert forall k :: 0 <= k < |init| ==> items[k] == init[k];
    }
  }

  /** new / original. */
  function Factor(recipe: Recipe, newServings: int): real
    requires recipe.servings != 0
  {
    newServings as real / recipe.servings as real
  }

  /** What `scale_recipe` returns or raises: every ingredient scaled by
      new / original, in order, and the recipe's other fields kept. A
      recipe whose servings are 0 cannot be validated, but the model's
      fields can be assigned after validation, and then the division
      fails. */
  function Scaled(recipe: Recipe, newServings: int): Result<Recipe, Error> {
    if newServings <= 0 then Failure(NewServingsNotPositive)
    else if recipe.servings == 0 then Failure(ZeroDivision)
    else NewRecipe(newServings, ScaleAll(recipe.ingredients, Factor(recipe, newServings)),
                   recipe.name, recipe.prepTime, recipe.extra)
  }

  /** `scale_recipe`: scale each ingredient into a new list, then build the
      new recipe from the old one's other fields. */
  method ScaleRecipe(recipe: Recipe, newServings: int) returns (r: Result<Recipe, Error>)
    ensures r == Scaled(recipe, newServings)
  {
    if newServings <= 0 {
      return Failure(NewServingsNotPositive);
    }
    if recipe.servings == 0 {
      return Failure(ZeroDivision);
    }
    var factor := Factor(recipe, newServings);

    var scaledIngredients := [];
    var i := 0;
    while i < |recipe.ingredients|
      invariant i <= |recipe.ingredients|
      invariant scaledIngredients == ScaleAll(recipe.ingredients[..i], factor)
    {
      var ingredient := recipe.ingredients[i];
      var dumped := ingredient;
      if ingredient.amount.Amount? {
        dumped := dumped.(amount := Amount(ingredient.amount.value * factor));
      }
      ScaleIngredientSpec(ingredient, factor);
      assert dumped == ScaleIngredient(ingredient, factor);
      assert recipe.ingredients[..i + 1][..i] == recipe.ingredients[..i];
      assert ScaleAll(recipe.ingredients[..i + 1], factor) == scaledIngredients + [ScaleIngredient(ingredient, factor)];
      scaledIngredients := scaledIngredients + [dumped];
      i := i + 1;
    }

    assert recipe.ingredients[..i] == recipe.ingredients;
    r := NewRecipe(newServings, scaledIngredients, recipe.name, recipe.prepTime, recipe.extra);
  }
}

module TypedRecipeFacts {
  import opened Wrappers
  import opened Errors
  import opened TypedRecipe

  /** Scaling a valid recipe to a positive count succeeds with a valid
      recipe of that many servings; a count that is not positive is
      rejected as such. */
  lemma ScaledValid(recipe: Recipe, newServings: int)
    requires ValidRecipe(recipe)
    ensures Scaled(recipe, newServings).Success? <==> newServings > 0
    ensures newServings <= 0 ==> Scaled(recipe, newServings) == Failure(NewServingsNotPositive)
    ensures Scaled(recipe, newServings).Success? ==>
              ValidRecipe(Scaled(recipe, newServings).value) &&
              Scaled(recipe, newServings).value.servings == newServings
  {
    if newServings > 0 {
      var f := Factor(recipe, newServings);
      ScaleAllSpec(recipe.ingredients, f);
      forall k | 0 <= k < |recipe.ingredients|
        ensures ValidIngredient(ScaleAll(recipe.ingredients, f)[k])
      {
        ScaleIngredientSpec(recipe.ingredients[k], f);
      }
    }
  }

  /** The scaled recipe has the new servings, and keeps its name,
      preparation time, extra fields and number of ingredients; each ingredient keeps its unit, name, note and
      extra fields, a missing amount stays missing, and an amount becomes
      amount * new / original. */
  lemma ScaledFields(recipe: Recipe, newServings: int, k: nat)
    requires Scaled(recipe, newServings).Success? && k < |recipe.ingredients|
    ensures var r := Scaled(recipe, newServings).value;
            var old_ := recipe.ingredients[k];
            r.servings == newServings &&
            r.name == recipe.name && r.prepTime == recipe.prepTime && r.extra == recipe.extra &&
            |r.ingredients| == |recipe.ingredients| &&
            r.ingredients[k].unit == old_.unit && r.ingredients[k].name == old_.name &&
            r.ingredients[k].note == old_.note && r.ingredients[k].extra == old_.extra &&
            (old_.amount.NoAmount? <==> r.ingredients[k].amount.NoAmount?) &&
            (old_.amount.Amount? ==>
               r.ingredients[k].amount == Amount(old_.amount.value * Factor(recipe, newServings)))
  {
    ScaleAllSpec(recipe.ingredients, Factor(recipe, newServings));
    ScaleIngredientSpec(recipe.ingredients[k], Factor(recipe, newServings));
  }

  /** Scaling an ingredient twice is scaling it once by the product. */
  lemma ScaleIngredientTwice(i: Ingredient, f: real, g: real)
    ensures ScaleIngredient(ScaleIngredient(i, f), g) == ScaleIngredient(i, f * g)
  {
    var once := ScaleIngredient(i, f);
    ScaleIngredientSpec(i, f);
    ScaleIngredientSpec(once, g);
    ScaleIngredientSpec(i, f * g);
    if i.amount.Amount? {
      var a := i.amount.value;
      assert once.amount.value == a * f;
      assert ScaleIngredient(once, g).amount.value == a * f * g;
      assert a * f * g == a * (f * g);
      assert ScaleIngredient(i, f * g).amount.value == a * (f * g);
    }
  }

  /** Scaling a list twice is scaling it once by the product. */
  lemma {:induction false} ScaleAllTwice(items: seq<Ingredient>, f: real, g: real)
    ensures ScaleAll(ScaleAll(items, f), g) == ScaleAll(items, f * g)
    decreases |items|
  {
    if items != [] {
      var init := items[..|items| - 1];
      var once := ScaleAll(items, f);
      ScaleAllTwice(init, f, g);
      ScaleAllSpec(init, f);
      assert once[..|once| - 1] == ScaleAll(init, f);
      ScaleIngredientTwice(items[|items| - 1], f, g);
    }
  }

  /** Scaling an ingredient by 1 keeps it. */
  lemma ScaleIngredientByOne(i: Ingredient)
    ensures ScaleIngredient(i, 1.0) == i
  {
  }

  /** Scaling a list by 1 keeps it. */
  lemma {:induction false} ScaleAllByOne(items: seq<Ingredient>)
    ensures ScaleAll(items, 1.0) == items
    decreases |items|
  {
    if items != [] {
      var init, last := items[..|items| - 1], items[|items| - 1];
      ScaleAllByOne(init);
      ScaleIngredientByOne(last);
      assert ScaleAll(items, 1.0) == init + [last];
      assert init + [last] == items;
    }
  }

  /** Scaling a scaled recipe is scaling the original. */
  lemma ScaledTwice(recipe: Recipe, m: int, n: int)
    requires Scaled(recipe, m).Success?
    ensures Scaled(Scaled(recipe, m).value, n) == Scaled(recipe, n)
  {
    var once := Scaled(recipe, m).value;
    if n > 0 {
      var f, g := Factor(recipe, m), Factor(once, n);
      assert once.servings == m && once.ingredients == ScaleAll(recipe.ingredients, f);
      assert f * g == Factor(recipe, n) by {
        var s := recipe.servings as real;
        assert f == m as real / s && g == n as real / m as real;
        assert (m as real / s) * (n as real / m as real) == n as real / s;
      }
      ScaleAllTwice(recipe.ingredients, f, g);
    }
  }

  /** Scaling a recipe to the servings it has gives it back. */
  lemma ScaledToOwnServings(recipe: Recipe)
    requires recipe.servings > 0
    ensures Scaled(recipe, recipe.servings) == Success(recipe)
  {
    assert Factor(recipe, recipe.servings) == 1.0;
    ScaleAllByOne(recipe.ingredients);
  }

  /** Scaling to any count and back restores the recipe. */
  lemma ScaledRoundTrip(recipe: Recipe, m: int)
    requires recipe.servings > 0 && m > 0
    ensures Scaled(Scaled(recipe, m).value, recipe.servings) == Success(recipe)
  {
    ScaledTwice(recipe, m, recipe.servings);
    ScaledToOwnServings(recipe);
  }
}
