/** The `/get_recipes` endpoint: the empty-ingredients guard, and the three
    mock recipes it falls back to when generating or storing recipes fails.
    The outcome of the language-model call, the session's user and the
    database insert are parameters. */
module Server {
  import opened Optional
  import opened RecipeData
  import opened Text

  /** The request body: not a JSON object at all, or an object whose
      `ingredients` field is absent/null or a list of names. */
  datatype Body = NotAnObject | Object(ingredients: Option<seq<string>>)

  /** What the JSON reply carries. */
  datatype Payload = ErrorPayload(error: string) | RecipesPayload(recipes: seq<Recipe>)

  /** A reply, or an exception that escapes the handler (the framework then
      answers with a non-JSON error page). */
  datatype Response = Response(status: nat, payload: Payload) | Crash

  /** The outcome of asking the language model for recipes and parsing its
      answer. */
  datatype Generation = GenerationFailed | Generated(recipes: seq<Recipe>)

  const NoIngredientsError := "No ingredients provided"
  const NotAuthenticatedError := "User not authenticated"

  /** `ingredients[0] if ingredients else default`. */
  function FirstOr(xs: seq<string>, default: string): (r: string)
    ensures |xs| > 0 ==> r == xs[0]
    ensures |xs| == 0 ==> r == default
  {
    if |xs| > 0 then xs[0] else default
  }

  /** The three fallback recipes built from the ingredient list. */
  function MockRecipes(xs: seq<string>): (r: seq<Recipe>)
    ensures |r| == 3
  {
    [ Recipe("Delicious " + FirstOr(xs, "Ingredient") + " Bowl",
             "A flavorful dish combining " + Join(", ", xs) + " with fresh herbs and spices.",
             "20 minutes", "Easy"),
      Recipe(FirstOr(xs, "Ingredient") + " & Veggie Stir Fry",
             "An Asian-inspired stir fry featuring " + Join(", ", Take(xs, 2)) + " with fresh vegetables.",
             "25 minutes", "Medium"),
      Recipe("Oven-Roasted " + FirstOr(xs, "Ingredients") + " Medley",
             "Oven-roasted " + Join(", ", xs) + " with garlic and herbs. Simple yet delicious!",
             "35 minutes", "Easy") ]
  }

  /** `get_recipes`. `authenticated` is whether the session holds a user id;
      `stored` is whether every database insert succeeded. */
  function GetRecipes(body: Body, generation: Generation, authenticated: bool, stored: bool): (r: Response)
    ensures r.Crash? <==> body.NotAnObject?
    ensures r.Response? ==> (r.status == 400 <==> body.ingredients.None? || |body.ingredients.value| == 0)
    ensures r.Response? && r.status == 400 ==> r.payload == ErrorPayload(NoIngredientsError)
    ensures r.Response? && r.status == 200 ==> r.payload.RecipesPayload?
    ensures r.Response? && r.status == 200 ==>
      r.payload.recipes == MockRecipes(body.ingredients.value)
      || (generation.Generated? && authenticated && stored && r.payload.recipes == generation.recipes)
    ensures r.Response? && r.status == 401 <==>
      body.Object? && body.ingredients.Some? && |body.ingredients.value| > 0
      && generation.Generated? && !authenticated
  {
    match body
    case NotAnObject => Crash
    case Object(field) =>
      var xs := if field.Some? then field.value else [];
      if |xs| == 0 then Response(400, ErrorPayload(NoIngredientsError))
      else match generation
        case GenerationFailed => Response(200, RecipesPayload(MockRecipes(xs)))
        case Generated(recipes) =>
          if !authenticated then Response(401, ErrorPayload(NotAuthenticatedError))
          else if !stored then Response(200, RecipesPayload(MockRecipes(xs)))
          else Response(200, RecipesPayload(recipes))
  }

  /** A missing or empty ingredient list is refused with 400 and no recipes. */
  lemma EmptyIngredientsRefused(body: Body, generation: Generation, authenticated: bool, stored: bool)
    requires body.Object? && (body.ingredients.None? || body.ingredients.value == [])
    ensures GetRecipes(body, generation, authenticated, stored) == Response(400, ErrorPayload(NoIngredientsError))
  {
  }

  /** When generating or storing recipes fails on a non-empty list, the reply
      is the three mock recipes. */
  lemma FailureFallsBack(xs: seq<string>, generation: Generation, authenticated: bool, stored: bool)
    requires |xs| > 0
    requires generation.GenerationFailed? || (authenticated && !stored)
    ensures GetRecipes(Object(Some(xs)), generation, authenticated, stored)
      == Response(200, RecipesPayload(MockRecipes(xs)))
    ensures |GetRecipes(Object(Some(xs)), generation, authenticated, stored).payload.recipes| == 3
  {
  }

  /** Generated recipes with no user in the session are refused with 401. */
  lemma UnauthenticatedRefused(xs: seq<string>, recipes: seq<Recipe>, stored: bool)
    requires |xs| > 0
    ensures GetRecipes(Object(Some(xs)), Generated(recipes), false, stored)
      == Response(401, ErrorPayload(NotAuthenticatedError))
  {
  }

  /** Generated and stored recipes are returned as they are. */
  lemma GeneratedReturned(xs: seq<string>, recipes: seq<Recipe>)
    requires |xs| > 0
    ensures GetRecipes(Object(Some(xs)), Generated(recipes), true, true)
      == Response(200, RecipesPayload(recipes))
  {
  }

  /** The prep times and difficulties of the mock recipes do not depend on the ingredients. */
  lemma MockFixedFields(xs: seq<string>, ys: seq<string>)
    ensures forall i :: 0 <= i < 3 ==>
      MockRecipes(xs)[i].prepTime == MockRecipes(ys)[i].prepTime
      && MockRecipes(xs)[i].difficulty == MockRecipes(ys)[i].difficulty
    ensures [MockRecipes(xs)[0].prepTime, MockRecipes(xs)[1].prepTime, MockRecipes(xs)[2].prepTime]
      == ["20 minutes", "25 minutes", "35 minutes"]
    ensures [MockRecipes(xs)[0].difficulty, MockRecipes(xs)[1].difficulty, MockRecipes(xs)[2].difficulty]
      == ["Easy", "Medium", "Easy"]
  {
  }

  /** `a + x + b` contains `x` right after `a`. */
  lemma OccursBetween(x: string, a: string, b: string)
    ensures OccursAt(x, a + x + b, |a|)
  {
  }

  /** The names depend on the first ingredient only, and each one mentions it. */
  lemma MockNamesUseFirst(xs: seq<string>)
    requires |xs| > 0
    ensures forall i :: 0 <= i < 3 ==> MockRecipes(xs)[i].name == MockRecipes([xs[0]])[i].name
    ensures forall i :: 0 <= i < 3 ==> Occurs(xs[0], MockRecipes(xs)[i].name)
  {
    var x := xs[0];
    OccursBetween(x, "Delicious ", " Bowl");
    OccursBetween(x, "", " & Veggie Stir Fry");
    assert "" + x + " & Veggie Stir Fry" == x + " & Veggie Stir Fry";
    OccursBetween(x, "Oven-Roasted ", " Medley");
  }

  /** With no ingredients the names fall back to 'Ingredient', 'Ingredient'
      and 'Ingredients'. */
  lemma MockNamesDefault()
    ensures MockRecipes([])[0].name == "Delicious Ingredient Bowl"
    ensures MockRecipes([])[1].name == "Ingredient & Veggie Stir Fry"
    ensures MockRecipes([])[2].name == "Oven-Roasted Ingredients Medley"
  {
  }

  /** `prefix + s + suffix` contains `s`, and so contains whatever `s` contains. */
  lemma OccursInFramed(needle: string, prefix: string, s: string, suffix: string)
    requires Occurs(needle, s)
    ensures Occurs(needle, prefix + s + suffix)
  {
    var k :| OccursAt(needle, s, k);
    var t := prefix + s + suffix;
    assert t[|prefix| + k..|prefix| + k + |needle|] == s[k..k + |needle|];
    assert OccursAt(needle, t, |prefix| + k);
  }

  /** The first and third descriptions mention every ingredient; the second
      mentions the first two. */
  lemma MockDescriptionsMention(xs: seq<string>, i: nat)
    requires i < |xs|
    ensures Occurs(xs[i], MockRecipes(xs)[0].description)
    ensures Occurs(xs[i], MockRecipes(xs)[2].description)
    ensures i < 2 ==> Occurs(xs[i], MockRecipes(xs)[1].description)
  {
    JoinContains(", ", xs, i);
    OccursInFramed(xs[i], "A flavorful dish combining ", Join(", ", xs), " with fresh herbs and spices.");
    OccursInFramed(xs[i], "Oven-roasted ", Join(", ", xs), " with garlic and herbs. Simple yet delicious!");
    if i < 2 {
      var front := Take(xs, 2);
      assert front[i] == xs[i];
      JoinContains(", ", front, i);
      OccursInFramed(xs[i], "An Asian-inspired stir fry featuring ", Join(", ", front), " with fresh vegetables.");
    }
  }

  /** The second description joins only the first two ingredients: the rest of
      the list does not change it. */
  lemma MockSecondIgnoresTail(xs: seq<string>, ys: seq<string>)
    requires |xs| >= 2 && |ys| >= 2 && xs[..2] == ys[..2]
    ensures MockRecipes(xs)[1] == MockRecipes(ys)[1]
  {
    assert Take(xs, 2) == xs[..2] && Take(ys, 2) == ys[..2];
    assert xs[0] == xs[..2][0] && ys[0] == ys[..2][0];
  }

  /** Removing a common frame from both sides of an equation. */
  lemma Unframe(prefix: string, m: string, n: string, suffix: string)
    requires prefix + m + suffix == prefix + n + suffix
    ensures m == n
  {
    var t := prefix + m + suffix;
    assert |m| == |n|;
    assert m == t[|prefix|..|prefix| + |m|];
    assert n == (prefix + n + suffix)[|prefix|..|prefix| + |n|];
  }

  /** Two ingredient lists give the same first (or third) description exactly
      when their ', '-joins agree, and the same second description exactly when
      the joins of their first two elements agree. */
  lemma MockDescriptionsFollowJoin(xs: seq<string>, ys: seq<string>)
    ensures MockRecipes(xs)[0].description == MockRecipes(ys)[0].description
      <==> Join(", ", xs) == Join(", ", ys)
    ensures MockRecipes(xs)[2].description == MockRecipes(ys)[2].description
      <==> Join(", ", xs) == Join(", ", ys)
    ensures MockRecipes(xs)[1].description == MockRecipes(ys)[1].description
      <==> Join(", ", Take(xs, 2)) == Join(", ", Take(ys, 2))
  {
    var jx, jy := Join(", ", xs), Join(", ", ys);
    var kx, ky := Join(", ", Take(xs, 2)), Join(", ", Take(ys, 2));
    if MockRecipes(xs)[0].description == MockRecipes(ys)[0].description {
      Unframe("A flavorful dish combining ", jx, jy, " with fresh herbs and spices.");
    }
    if MockRecipes(xs)[2].description == MockRecipes(ys)[2].description {
      Unframe("Oven-roasted ", jx, jy, " with garlic and herbs. Simple yet delicious!");
    }
    if MockRecipes(xs)[1].description == MockRecipes(ys)[1].description {
      Unframe("An Asian-inspired stir fry featuring ", kx, ky, " with fresh vegetables.");
    }
  }
}
