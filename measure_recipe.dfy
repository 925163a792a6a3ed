/** `scale_recipe` of measure/recipe.py: a recipe is a dict with a
    "servings" number and an "ingredients" list of dicts; the result is a
    new dict with the new servings, every other recipe key copied, and each
    ingredient copied with its "amount" multiplied by new / original. */
module MeasureRecipe {
  import opened Wrappers
  import opened Errors
  import opened Values

  type Fields = map<string, Value>

  /** The recipe keys the scaler rebuilds rather than copies. */
  predicate IsRebuilt(k: string) {
    k == "servings" || k == "ingredients"
  }

  // ---------------------------------------------------------------------
  // One ingredient

  /** `ingredient.copy()`, then `amount * scale_factor` when the copy has an
      "amount". A dict is copied; a list is copied too, and `"amount" in`
      it asks whether it holds that string, after which indexing it by a
      string fails; the other values have no `copy`. An amount that is not
      a number cannot be multiplied. */
  function ScaleIngredient(ing: Value, factor: real): Result<Value, Error> {
    match ing
    case Dict(f) =>
      if "amount" !in f then Success(ing)
      else (match f["amount"]
        case Num(a) => Success(Dict(f["amount" := Num(a * factor)]))
        case _ => Failure(TypeMismatch("*")))
    case List(xs) =>
      if Str("amount") in xs then Failure(TypeMismatch("[]")) else Success(ing)
    case _ => Failure(TypeMismatch("copy"))
  }

  /** A scaled ingredient dict has the same keys, the amount times the
      factor, and every other entry as it was; one without an amount comes
      back as it was. */
  lemma ScaleIngredientSpec(ing: Value, factor: real)
    requires ing.Dict?
    ensures ScaleIngredient(ing, factor).Success? <==> ("amount" in ing.fields ==> ing.fields["amount"].Num?)
    ensures ScaleIngredient(ing, factor).Success? ==>
              var out := ScaleIngredient(ing, factor).value;
              out.Dict? && out.fields.Keys == ing.fields.Keys &&
              (forall k :: k in ing.fields && k != "amount" ==> out.fields[k] == ing.fields[k]) &&
              ("amount" in ing.fields ==> out.fields["amount"] == Num(ing.fields["amount"].n * factor))
    ensures "amount" !in ing.fields ==> ScaleIngredient(ing, factor) == Success(ing)
  {
  }

  // ---------------------------------------------------------------------
  // The ingredient list

  /** The loop over the ingredients: each one scaled in order, stopping at
      the first that fails. */
  function ScaleAll(items: seq<Value>, factor: real): Result<seq<Value>, Error>
    decreases |items|
  {
    if items == [] then Success([])
    else
      match ScaleAll(items[..|items| - 1], factor)
      case Failure(e) => Failure(e)
      case Success(done) =>
        match ScaleIngredient(items[|items| - 1], factor)
        case Failure(e) => Failure(e)
        case Success(x) => Success(done + [x])
  }

  /** The list succeeds exactly when every ingredient does, and then it
      holds the scaled ingredients in their order. */
  lemma {:induction false} ScaleAllSpec(items: seq<Value>, factor: real)
    ensures ScaleAll(items, factor).Success? <==> forall i :: 0 <= i < |items| ==> ScaleIngredient(items[i], factor).Success?
    ensures ScaleAll(items, factor).Success? ==>
              |ScaleAll(items, factor).value| == |items| &&
              forall i :: 0 <= i < |items| ==> ScaleAll(items, factor).value[i] == ScaleIngredient(items[i], factor).value
    decreases |items|
  {
    if items != [] {
      var init := items[..|items| - 1];
      ScaleAllSpec(init, factor);
      assert forall i :: 0 <= i < |init| ==> items[i] == init[i];
    }
  }

  /** The first ingredient that fails gives the error of the whole list. */
  lemma {:induction false} ScaleAllFirstFailure(items: seq<Value>, factor: real, i: nat)
    requires i < |items| && ScaleAll(items[..i], factor).Success?
    requires ScaleIngredient(items[i], factor).Failure?
    ensures ScaleAll(items, factor) == Failure(ScaleIngredient(items[i], factor).error)
    decreases |items|
  {
    if i + 1 < |items| {
      var init := items[..|items| - 1];
      assert init[..i] == items[..i];
      ScaleAllFirstFailure(init, factor, i);
    } else {
      assert items[..|items| - 1] == items[..i];
    }
  }

  /** Iterating `recipe["ingredients"]`: a list gives its elements; an
      empty dict or string gives none, and a non-empty one gives str
      values, which have no `copy`; anything else is not iterable. */
  function Ingredients(v: Value): Result<seq<Value>, Error> {
    match v
    case List(items) => Success(items)
    case Dict(f) => if f == map[] then Success([]) else Failure(TypeMismatch("copy"))
    case Str(s) => if s == [] then Success([]) else Failure(TypeMismatch("copy"))
    case _ => Failure(TypeMismatch("iter"))
  }

  // ---------------------------------------------------------------------
  // The recipe

  /** The recipe keys other than the two rebuilt ones, among the keys
      `done`. */
  function ExtrasOf(recipe: Fields, done: set<string>): Fields {
    map k | k in recipe && k in done && !IsRebuilt(k) :: recipe[k]
  }

  /** What `scale_recipe` returns or raises, check by check in the order of
      the source. */
  function Scaled(recipe: Fields, newServings: int): Result<Fields, Error> {
    if "servings" !in recipe then Failure(MissingKey("servings"))
    else if "ingredients" !in recipe then Failure(MissingKey("ingredients"))
    else if !recipe["servings"].Num? then Failure(TypeMismatch("<="))
    else if recipe["servings"].n <= 0.0 then Failure(OriginalServingsNotPositive)
    else if newServings <= 0 then Failure(NewServingsNotPositive)
    else
      var factor := newServings as real / recipe["servings"].n;
      match Ingredients(recipe["ingredients"])
      case Failure(e) => Failure(e)
      case Success(items) =>
        match ScaleAll(items, factor)
        case Failure(e) => Failure(e)
        case Success(scaled) =>
          Success(map["servings" := Num(newServings as real), "ingredients" := List(scaled)] +
                  ExtrasOf(recipe, recipe.Keys))
  }

  /** `scale_recipe`: build the new dict, copy the extra keys, then scale
      and append each ingredient. */
  method ScaleRecipe(recipe: Fields, newServings: int) returns (r: Result<Fields, Error>)
    ensures r == Scaled(recipe, newServings)
  {
    if "servings" !in recipe {
      return Failure(MissingKey("servings"));
    }
    if "ingredients" !in recipe {
      return Failure(MissingKey("ingredients"));
    }
    var originalServings := recipe["servings"];
    if !originalServings.Num? {
      return Failure(TypeMismatch("<="));
    }
    if originalServings.n <= 0.0 {
      return Failure(OriginalServingsNotPositive);
    }
    if newServings <= 0 {
      return Failure(NewServingsNotPositive);
    }
    var factor := newServings as real / originalServings.n;
    var base := map["servings" := Num(newServings as real), "ingredients" := List([])];
    var scaled := base;

    // Copy any additional keys.
    var keys := recipe.Keys;
    while keys != {}
      invariant keys <= recipe.Keys
      invariant scaled == base + ExtrasOf(recipe, recipe.Keys - keys)
      decreases keys
    {
      var k :| k in keys;
      if !IsRebuilt(k) {
        scaled := scaled[k := recipe[k]];
      }
      keys := keys - {k};
    }

    // Scale each ingredient.
    var items;
    var iter := Ingredients(recipe["ingredients"]);
    if iter.Failure? {
      return Failure(iter.error);
    }
    items := iter.value;
    var ingredients := [];
    var i := 0;
    while i < |items|
      invariant i <= |items|
      invariant ScaleAll(items[..i], factor) == Success(ingredients)
    {
      var s := ScaleIngredient(items[i], factor);
      if s.Failure? {
        ScaleAllFirstFailure(items, factor, i);
        return Failure(s.error);
      }
      assert items[..i + 1][..i] == items[..i];
      ingredients := ingredients + [s.value];
      i := i + 1;
    }
    assert items[..i] == items;
    var extras := ExtrasOf(recipe, recipe.Keys);
    assert recipe.Keys - keys == recipe.Keys;
    assert !("servings" in extras) && !("ingredients" in extras);
    scaled := scaled["ingredients" := List(ingredients)];
    assert scaled == map["servings" := Num(newServings as real), "ingredients" := List(ingredients)] + extras;
    return Success(scaled);
  }
}

module MeasureRecipeFacts {
  import opened Wrappers
  import opened Errors
  import opened Values
  import opened MeasureRecipe

  /** The ingredients of a recipe that gets past the servings checks. */
  predicate Checked(recipe: Fields, newServings: int) {
    "servings" in recipe && "ingredients" in recipe && recipe["servings"].Num? &&
    recipe["servings"].n > 0.0 && newServings > 0
  }

  function Factor(recipe: Fields, newServings: int): real
    requires Checked(recipe, newServings)
  {
    newServings as real / recipe["servings"].n
  }

  /** The checks in their order: a missing servings key, then a missing
      ingredients key, each reported by name; then servings that are not a
      number; then original servings that are not positive, reported before
      new servings that are not positive, both saying "positive". */
  lemma ScaledRejects(recipe: Fields, newServings: int)
    ensures "servings" !in recipe ==>
              Scaled(recipe, newServings) == Failure(MissingKey("servings")) &&
              Contains(Message(Scaled(recipe, newServings).error), "servings")
    ensures "servings" in recipe && "ingredients" !in recipe ==>
              Scaled(recipe, newServings) == Failure(MissingKey("ingredients")) &&
              Contains(Message(Scaled(recipe, newServings).error), "ingredients")
    ensures "servings" in recipe && "ingredients" in recipe && !recipe["servings"].Num? ==>
              Scaled(recipe, newServings) == Failure(TypeMismatch("<="))
    ensures "servings" in recipe && "ingredients" in recipe && recipe["servings"].Num? &&
            recipe["servings"].n <= 0.0 ==>
              Scaled(recipe, newServings) == Failure(OriginalServingsNotPositive) &&
              Contains(Message(Scaled(recipe, newServings).error), "positive")
    ensures "servings" in recipe && "ingredients" in recipe && recipe["servings"].Num? &&
            recipe["servings"].n > 0.0 && newServings <= 0 ==>
              Scaled(recipe, newServings) == Failure(NewServingsNotPositive) &&
              Contains(Message(Scaled(recipe, newServings).error), "positive")
  {
    MissingKeyWords("servings");
    MissingKeyWords("ingredients");
    ServingsMessageWords();
  }

  /** The recipe scales exactly when it passes the servings checks, its
      ingredients can be iterated, and every ingredient can be scaled. */
  lemma ScaledSucceeds(recipe: Fields, newServings: int)
    ensures Scaled(recipe, newServings).Success? <==>
              Checked(recipe, newServings) && Ingredients(recipe["ingredients"]).Success? &&
              forall i :: 0 <= i < |Ingredients(recipe["ingredients"]).value| ==>
                ScaleIngredient(Ingredients(recipe["ingredients"]).value[i], Factor(recipe, newServings)).Success?
  {
    if Checked(recipe, newServings) && Ingredients(recipe["ingredients"]).Success? {
      ScaleAllSpec(Ingredients(recipe["ingredients"]).value, Factor(recipe, newServings));
    }
  }

  /** A scaled recipe has the same keys, the new servings, every other key
      as it was, and the ingredients scaled one for one in their order. */
  lemma ScaledShape(recipe: Fields, newServings: int)
    requires Scaled(recipe, newServings).Success?
    ensures var r := Scaled(recipe, newServings).value;
            var items := Ingredients(recipe["ingredients"]).value;
            Checked(recipe, newServings) && Ingredients(recipe["ingredients"]).Success? &&
            r.Keys == recipe.Keys &&
            r["servings"] == Num(newServings as real) &&
            (forall k :: k in recipe && !IsRebuilt(k) ==> r[k] == recipe[k]) &&
            r["ingredients"].List? && |r["ingredients"].items| == |items| &&
            forall i :: 0 <= i < |items| ==>
              ScaleIngredient(items[i], Factor(recipe, newServings)).Success? &&
              r["ingredients"].items[i] == ScaleIngredient(items[i], Factor(recipe, newServings)).value
  {
    ScaleAllSpec(Ingredients(recipe["ingredients"]).value, Factor(recipe, newServings));
  }

  /** Each ingredient dict keeps its keys and its other entries, and its
      amount becomes amount * new / original. */
  lemma ScaledAmounts(recipe: Fields, newServings: int, i: nat)
    requires Scaled(recipe, newServings).Success?
    requires i < |Ingredients(recipe["ingredients"]).value| && Ingredients(recipe["ingredients"]).value[i].Dict?
    ensures var ing := Ingredients(recipe["ingredients"]).value[i].fields;
            var r := Scaled(recipe, newServings).value;
            "ingredients" in r && r["ingredients"].List? && i < |r["ingredients"].items| &&
            var out := r["ingredients"].items[i];
            out.Dict? && out.fields.Keys == ing.Keys &&
            (forall k :: k in ing && k != "amount" ==> out.fields[k] == ing[k]) &&
            ("amount" in ing ==>
               ing["amount"].Num? && "servings" in recipe && recipe["servings"].Num? &&
               out.fields["amount"] == Num(ing["amount"].n * newServings as real / recipe["servings"].n))
  {
    ScaledShape(recipe, newServings);
    ScaledSucceeds(recipe, newServings);
    var ing := Ingredients(recipe["ingredients"]).value[i];
    ScaleIngredientSpec(ing, Factor(recipe, newServings));
  }

  /** Scaling an ingredient twice is scaling it once by the product. */
  lemma ScaleIngredientTwice(ing: Value, f: real, g: real)
    requires ScaleIngredient(ing, f).Success?
    ensures ScaleIngredient(ScaleIngredient(ing, f).value, g) == ScaleIngredient(ing, f * g)
  {
    if ing.Dict? && "amount" in ing.fields {
      var a := ing.fields["amount"].n;
      var once := ScaleIngredient(ing, f).value;
      var twice := ScaleIngredient(once, g);
      var direct := ScaleIngredient(ing, f * g);
      ScaleIngredientSpec(ing, f);
      ScaleIngredientSpec(once, g);
      ScaleIngredientSpec(ing, f * g);
      assert a * f * g == a * (f * g);
      assert twice.value.fields == direct.value.fields by {
        forall k | k in ing.fields ensures twice.value.fields[k] == direct.value.fields[k] {
        }
      }
    }
  }

  /** Scaling by one changes no ingredient. */
  lemma ScaleIngredientByOne(ing: Value)
    requires ScaleIngredient(ing, 1.0).Success?
    ensures ScaleIngredient(ing, 1.0) == Success(ing)
  {
    if ing.Dict? && "amount" in ing.fields {
      assert ing.fields["amount" := Num(ing.fields["amount"].n * 1.0)] == ing.fields;
    }
  }

  /** Lists whose ingredients scale alike scale alike. */
  lemma {:induction false} ScaleAllPointwise(xs: seq<Value>, f: real, ys: seq<Value>, g: real)
    requires |xs| == |ys|
    requires forall i :: 0 <= i < |xs| ==> ScaleIngredient(xs[i], f) == ScaleIngredient(ys[i], g)
    ensures ScaleAll(xs, f) == ScaleAll(ys, g)
    decreases |xs|
  {
    if xs != [] {
      ScaleAllPointwise(xs[..|xs| - 1], f, ys[..|ys| - 1], g);
    }
  }

  /** Scaling a scaled recipe is scaling the original: the result of
      scaling to m and then to n is the result of scaling to n directly,
      and that includes the errors of a count n that is not positive. */
  lemma ScaledTwice(recipe: Fields, m: int, n: int)
    requires Scaled(recipe, m).Success?
    ensures Scaled(Scaled(recipe, m).value, n) == Scaled(recipe, n)
  {
    var r1 := Scaled(recipe, m).value;
    ScaledShape(recipe, m);
    if n > 0 {
      var o := recipe["servings"].n;
      var items := Ingredients(recipe["ingredients"]).value;
      var items1 := r1["ingredients"].items;
      var f := m as real / o;
      var g := n as real / m as real;
      assert f * g == n as real / o;
      forall i | 0 <= i < |items1|
        ensures ScaleIngredient(items1[i], g) == ScaleIngredient(items[i], n as real / o)
      {
        ScaleIngredientTwice(items[i], f, g);
      }
      ScaleAllPointwise(items1, g, items, n as real / o);
      assert ExtrasOf(r1, r1.Keys) == ExtrasOf(recipe, recipe.Keys);
    }
  }

  /** Scaling a recipe to the servings it has gives it back unchanged. */
  lemma ScaledToOwnServings(recipe: Fields, o: int)
    requires "servings" in recipe && recipe["servings"] == Num(o as real)
    requires "ingredients" in recipe && recipe["ingredients"].List?
    requires Scaled(recipe, o).Success?
    ensures Scaled(recipe, o) == Success(recipe)
  {
    var items := recipe["ingredients"].items;
    var r := Scaled(recipe, o).value;
    ScaledShape(recipe, o);
    assert Factor(recipe, o) == 1.0 by {
      assert o as real / o as real == 1.0;
    }
    assert r["ingredients"].items == items by {
      forall i | 0 <= i < |items|
        ensures ScaleIngredient(items[i], 1.0) == Success(items[i])
      {
        ScaleIngredientByOne(items[i]);
      }
    }
    assert r == recipe by {
      forall k | k in recipe ensures r[k] == recipe[k] {
      }
    }
  }

  /** Scaling to any count and back to the original servings restores the
      recipe. */
  lemma ScaledRoundTrip(recipe: Fields, m: int, o: int)
    requires "servings" in recipe && recipe["servings"] == Num(o as real)
    requires "ingredients" in recipe && recipe["ingredients"].List?
    requires Scaled(recipe, m).Success?
    ensures Scaled(Scaled(recipe, m).value, o) == Success(recipe)
  {
    ScaledTwice(recipe, m, o);
    ScaledShape(recipe, m);
    ScaledSucceeds(recipe, o);
    ScaledSucceeds(recipe, m);
    ScaledToOwnServings(recipe, o);
  }
}
