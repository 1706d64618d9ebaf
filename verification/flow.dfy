/** The page and the `/get_recipes` endpoint together: what the page sends,
    what the server answers, and what the page then shows. */
module Flow {
  import opened Optional
  import opened RecipeData
  import opened Text
  import Ingredients
  import Board
  import Server

  /** How the page reads a server response: an escaped exception yields a
      non-JSON error page; otherwise the JSON carries either `error` or
      `recipes`. The status code is not looked at. */
  function ToClient(resp: Server.Response): (reply: Board.Reply<Recipe>)
    ensures resp.Crash? <==> reply.Unreadable?
    ensures reply.Json? ==> (reply.error.Some? <==> reply.recipes.None?)
    ensures resp.Response? && resp.payload.RecipesPayload? ==>
      reply == Board.Json(None, Some(resp.payload.recipes))
    ensures resp.Response? && resp.payload.ErrorPayload? ==>
      reply == Board.Json(Some(resp.payload.error), None)
  {
    match resp
    case Crash => Board.Unreadable
    case Response(_, ErrorPayload(e)) => Board.Json(Some(e), None)
    case Response(_, RecipesPayload(rs)) => Board.Json(None, Some(rs))
  }

  /** What the page posts always gets past the server's empty-ingredients
      guard: the page's own guard is at least as strict. */
  lemma PostedListPassesServerGuard(p: Board.Page, generation: Server.Generation, authenticated: bool, stored: bool)
    requires Board.GetRecipes(p).1.PostRecipes?
    ensures var resp := Server.GetRecipes(Server.Object(Some(Board.GetRecipes(p).1.payload)),
                                          generation, authenticated, stored);
      resp.Response? && resp.status != 400
  {
  }

  /** When generation fails, the page ends up with the three fallback cards,
      built from the list it sent. */
  lemma FallbackShowsThreeCards(p: Board.Page, authenticated: bool, stored: bool)
    requires |p.ingredients| > 0
    ensures var (q, e) := Board.GetRecipes(p);
      var resp := Server.GetRecipes(Server.Object(Some(e.payload)), Server.GenerationFailed, authenticated, stored);
      var c := Board.ReceiveRecipes(q, ToClient(resp)).0.container;
      && c == Board.Cards(Board.RenderCards(Server.MockRecipes(p.ingredients)))
      && |c.cards| == 3
  {
  }

  /** A session without a user answers 401 with an error, and the page keeps
      showing the loading card. */
  lemma UnauthenticatedLeavesLoading(p: Board.Page, recipes: seq<Recipe>, stored: bool)
    requires |p.ingredients| > 0
    ensures var (q, e) := Board.GetRecipes(p);
      var resp := Server.GetRecipes(Server.Object(Some(e.payload)), Server.Generated(recipes), false, stored);
      && resp == Server.Response(401, Server.ErrorPayload(Server.NotAuthenticatedError))
      && Board.ReceiveRecipes(q, ToClient(resp)).0.container == Board.Loading
  {
  }

  /** Typing `"  egg "` and pressing add stores `"egg"` and empties the input. */
  lemma AddTrimsExample()
    ensures Board.Run(Board.InitialPage, [Board.Typed("  egg "), Board.AddClicked]).ingredients == ["egg"]
    ensures Board.Run(Board.InitialPage, [Board.Typed("  egg "), Board.AddClicked]).input == ""
  {
    var es := [Board.Typed("  egg "), Board.AddClicked];
    var p1 := Board.InitialPage.(input := "  egg ");
    TrimEggExample();
    Ingredients.AddAppends([], "  egg ");
    var p2 := Board.AddIngredient(p1);
    assert p2.ingredients == ["egg"] && p2.input == "";
    assert es[1..] == [Board.AddClicked] && es[1..][1..] == [];
    assert Board.Run(Board.InitialPage, es) == Board.Run(p1, es[1..]);
    assert Board.Run(p1, es[1..]) == Board.Run(p2, []);
  }

  /** `"egg"` and `"egg "` trim to the same name. */
  lemma EggTrims()
    ensures Trim("egg") == "egg" && Trim("egg ") == "egg"
  {
    TrimmedPlusSpace("egg", []);
    TrimmedPlusSpace("egg", " ");
  }

  /** A trimmed name followed by whitespace trims back to the name. */
  lemma TrimmedPlusSpace(m: string, q: string)
    requires IsTrimmed(m) && AllWhitespace(q)
    ensures Trim(m + q) == m
  {
    TrimOfPadded([], m, q);
    assert [] + m + q == m + q;
  }

  /** Adding `"egg"` and then `"egg "` leaves a single entry. */
  lemma AddTwiceExample()
    ensures var p1 := Board.AddIngredient(Board.InitialPage.(input := "egg"));
      var p2 := Board.AddIngredient(p1.(input := "egg "));
      p1.ingredients == ["egg"] && p2.ingredients == ["egg"] && p2.input == "egg "
  {
    EggTrims();
    Ingredients.AddAppends([], "egg");
    var p1 := Board.AddIngredient(Board.InitialPage.(input := "egg"));
    assert Trim("egg ") in p1.ingredients;
  }

  /** The worked example: with `egg` and `flour` listed and a reply holding one
      recipe, the page shows exactly that one card. */
  lemma PancakeExample()
    ensures var p := Board.Page(["egg", "flour"], "", Board.Initial, Board.Hidden, Board.Empty);
      var pancake := Recipe("Pancake", "...", "10m", "Easy");
      var (q, e) := Board.GetRecipes(p);
      && e == Board.PostRecipes(["egg", "flour"])
      && Board.ReceiveRecipes(q, Board.Json(None, Some([pancake]))).0.container
         == Board.Cards([Board.Card("Pancake", "...", "10m", "Easy")])
  {
  }

  /** Asking for recipes with an empty list sends nothing and changes nothing. */
  lemma EmptyListSendsNothing(p: Board.Page)
    requires |p.ingredients| == 0
    ensures Board.Step(p, Board.GetRecipesClicked) == (p, Board.Alert(Board.NeedIngredientMessage))
  {
  }
}
