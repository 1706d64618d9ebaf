/** The browser page as a state machine: the ingredient list, the text in the
    input field, what the recipes container shows, the history modal and the
    history list inside it. Each user action or server reply is a pure
    transition that returns the next page and the one visible side effect it
    causes (an alert or a request). */
module Board {
  import opened Optional
  import opened RecipeData
  import Ingredients

  /** One recipe card: the four fields of the recipe it shows. */
  datatype Card = Card(name: string, description: string, prepTime: string, difficulty: string)

  /** What the recipes container shows. */
  datatype Container =
    | Initial                 // the page's own markup, never rewritten
    | Loading                 // the "Finding recipes..." placeholder card
    | Blank                   // emptied, then left empty by a failed render
    | NoRecipes               // the single "No recipes found" card
    | Cards(cards: seq<Card>) // one card per recipe, in reply order

  datatype Modal = Hidden | Shown

  /** One history row: the recipe's fields and its raw creation time. */
  datatype HistoryItem = HistoryItem(name: string, description: string, prepTime: string,
                                     difficulty: string, createdAt: int)

  /** The list inside the history modal. */
  datatype HistoryList = Empty | NoHistory | Items(items: seq<HistoryItem>)

  datatype Page = Page(ingredients: seq<string>, input: string, container: Container,
                       modal: Modal, history: HistoryList)

  /** The side effect of one transition. */
  datatype Effect =
    | NoEffect
    | Alert(message: string)
    | PostRecipes(payload: seq<string>)  // POST /get_recipes with {"ingredients": payload}
    | GetHistory                         // GET /recipe_history

  /** A server reply as the page sees it: either unreadable (the request failed
      or the body was not JSON) or a JSON object with optional `error` and
      `recipes` fields. */
  datatype Reply<T> = Unreadable | Json(error: Option<string>, recipes: Option<seq<T>>)

  datatype Event =
    | Typed(text: string)           // the user edits the input field
    | AddClicked
    | KeyPressed(key: string)       // a key pressed in the input field
    | RemoveClicked(name: string)   // the remove mark on the tag of `name`
    | ClearClicked
    | GetRecipesClicked
    | RecipesArrived(recipesReply: Reply<Recipe>)
    | HistoryClicked
    | HistoryArrived(historyReply: Reply<HistoryEntry>)
    | CloseClicked
    | ModalClicked(onBackdrop: bool) // a click inside the modal; `onBackdrop` when outside its content

  const NeedIngredientMessage := "Please add at least one ingredient"
  const RecipesFailedMessage := "Failed to get recipes. Please try again later."
  const HistoryFailedMessage := "Failed to load recipe history."
  const ErrorPrefix := "Error: "

  const InitialPage := Page([], "", Initial, Hidden, Empty)

  /** JavaScript truthiness of the reply's `error` field: absent and the empty
      string are both false. */
  predicate HasError<T>(reply: Reply<T>): (b: bool)
    requires reply.Json?
    ensures b ==> reply.error.Some? && |reply.error.value| > 0
    ensures reply.error.None? || reply.error == Some("") ==> !b
    ensures reply.error.Some? && |reply.error.value| > 0 ==> b
  {
    reply.error.Some? && reply.error.value != ""
  }

  /** The page keeps the ingredient-list invariant. */
  predicate Valid(p: Page) {
    Ingredients.Valid(p.ingredients)
  }

  /** `addIngredient`: on success the input is emptied; otherwise nothing changes. */
  function AddIngredient(p: Page): (q: Page)
    ensures q.ingredients == Ingredients.Add(p.ingredients, p.input)
    ensures q.ingredients == p.ingredients ==> q == p
    ensures q.ingredients != p.ingredients ==> q == p.(ingredients := q.ingredients, input := "")
  {
    var l := Ingredients.Add(p.ingredients, p.input);
    if l == p.ingredients then p else p.(ingredients := l, input := "")
  }

  /** The remove handler: filter the name out; nothing else changes. */
  function RemoveIngredient(p: Page, name: string): (q: Page)
    ensures q.ingredients == Ingredients.Remove(p.ingredients, name)
    ensures q.(ingredients := p.ingredients) == p
    ensures name !in q.ingredients
    ensures forall x :: x != name ==> (x in q.ingredients <==> x in p.ingredients)
    ensures name !in p.ingredients ==> q == p
  {
    p.(ingredients := Ingredients.Remove(p.ingredients, name))
  }

  /** `clearAllIngredients`. */
  function ClearIngredients(p: Page): (q: Page)
    ensures q.(ingredients := p.ingredients) == p
    ensures |q.ingredients| == 0
  {
    p.(ingredients := [])
  }

  /** `getRecipes`: with no ingredients, alert and change nothing; otherwise
      show the loading card and post the current list. */
  function GetRecipes(p: Page): (r: (Page, Effect))
    ensures |p.ingredients| == 0 <==> r.1.Alert?
    ensures |p.ingredients| == 0 ==> r == (p, Alert(NeedIngredientMessage))
    ensures |p.ingredients| > 0 ==> r.0 == p.(container := Loading)
    ensures |p.ingredients| > 0 ==> r.1 == PostRecipes(p.ingredients)
  {
    if |p.ingredients| == 0 then (p, Alert(NeedIngredientMessage))
    else (p.(container := Loading), PostRecipes(p.ingredients))
  }

  /** The cards `displayRecipes` appends, one per recipe. */
  function RenderCards(rs: seq<Recipe>): (cards: seq<Card>)
    ensures |cards| == |rs|
    ensures forall i :: 0 <= i < |rs| ==>
      cards[i] == Card(rs[i].name, rs[i].description, rs[i].prepTime, rs[i].difficulty)
  {
    if |rs| == 0 then []
    else [Card(rs[0].name, rs[0].description, rs[0].prepTime, rs[0].difficulty)] + RenderCards(rs[1..])
  }

  /** `displayRecipes`. */
  function DisplayRecipes(rs: seq<Recipe>): (c: Container)
    ensures |rs| == 0 <==> c == NoRecipes
    ensures |rs| > 0 <==> c.Cards?
    ensures c.Cards? ==> c.cards == RenderCards(rs)
  {
    if |rs| == 0 then NoRecipes else Cards(RenderCards(rs))
  }

  /** The reply handler of `getRecipes`. */
  function ReceiveRecipes(p: Page, reply: Reply<Recipe>): (r: (Page, Effect))
    ensures r.0.ingredients == p.ingredients && r.0.input == p.input
    ensures r.0.modal == p.modal && r.0.history == p.history
    ensures r.0.container != p.container ==> reply.Json? && !HasError(reply)
    ensures r.1.Alert? <==> !(reply.Json? && !HasError(reply) && reply.recipes.Some?)
    ensures reply.Unreadable? ==> r == (p, Alert(RecipesFailedMessage))
    ensures reply.Json? && HasError(reply) ==> r == (p, Alert(ErrorPrefix + reply.error.value))
    ensures reply.Json? && !HasError(reply) && reply.recipes.None? ==>
      r == (p.(container := Blank), Alert(RecipesFailedMessage))
    ensures reply.Json? && !HasError(reply) && reply.recipes.Some? ==>
      r == (p.(container := DisplayRecipes(reply.recipes.value)), NoEffect)
  {
    match reply
    case Unreadable => (p, Alert(RecipesFailedMessage))
    case Json(error, recipes) =>
      if HasError(reply) then (p, Alert(ErrorPrefix + error.value))
      else if recipes.None? then (p.(container := Blank), Alert(RecipesFailedMessage))
      else (p.(container := DisplayRecipes(recipes.value)), NoEffect)
  }

  /** The history rows, one per entry; the date stays a raw timestamp. */
  function RenderHistory(es: seq<HistoryEntry>): (items: seq<HistoryItem>)
    ensures |items| == |es|
    ensures forall i :: 0 <= i < |es| ==>
      items[i] == HistoryItem(es[i].recipe.name, es[i].recipe.description, es[i].recipe.prepTime,
                              es[i].recipe.difficulty, es[i].createdAt)
  {
    if |es| == 0 then []
    else
      var e := es[0];
      [HistoryItem(e.recipe.name, e.recipe.description, e.recipe.prepTime, e.recipe.difficulty, e.createdAt)]
      + RenderHistory(es[1..])
  }

  /** The reply handler of `viewRecipeHistory`: fill the list and show the modal. */
  function ReceiveHistory(p: Page, reply: Reply<HistoryEntry>): (r: (Page, Effect))
    ensures r.0.ingredients == p.ingredients && r.0.input == p.input && r.0.container == p.container
    ensures reply.Unreadable? ==> r == (p, Alert(HistoryFailedMessage))
    ensures reply.Json? && HasError(reply) ==> r == (p, Alert(ErrorPrefix + reply.error.value))
    ensures reply.Json? && !HasError(reply) && reply.recipes.None? ==>
      r == (p.(history := Empty), Alert(HistoryFailedMessage))
    ensures r.0.modal == Shown <==> p.modal == Shown || (reply.Json? && !HasError(reply) && reply.recipes.Some?)
    ensures reply.Json? && !HasError(reply) && reply.recipes.Some? ==>
      r.1 == NoEffect
      && (|reply.recipes.value| == 0 <==> r.0.history == NoHistory)
      && (|reply.recipes.value| > 0 ==> r.0.history == Items(RenderHistory(reply.recipes.value)))
  {
    match reply
    case Unreadable => (p, Alert(HistoryFailedMessage))
    case Json(error, recipes) =>
      if HasError(reply) then (p, Alert(ErrorPrefix + error.value))
      else if recipes.None? then (p.(history := Empty), Alert(HistoryFailedMessage))
      else if |recipes.value| == 0 then (p.(history := NoHistory, modal := Shown), NoEffect)
      else (p.(history := Items(RenderHistory(recipes.value)), modal := Shown), NoEffect)
  }

  /** `closeModal`. */
  function CloseModal(p: Page): (q: Page)
    ensures q.modal == Hidden
    ensures q.(modal := p.modal) == p
  {
    p.(modal := Hidden)
  }

  /** The modal's click handler: only a click on the backdrop closes it. */
  function ClickModal(p: Page, onBackdrop: bool): (q: Page)
    ensures q.modal == Hidden <==> onBackdrop || p.modal == Hidden
    ensures q == p.(modal := q.modal)
  {
    if onBackdrop then CloseModal(p) else p
  }

  /** The events whose handlers may change the ingredient list. */
  predicate ChangesList(e: Event) {
    e.AddClicked? || e.KeyPressed? || e.RemoveClicked? || e.ClearClicked?
  }

  /** One event handled by the page. */
  function Step(p: Page, e: Event): (r: (Page, Effect))
    ensures r.0.ingredients != p.ingredients ==> ChangesList(e)
    ensures e.KeyPressed? && e.key != "Enter" ==> r == (p, NoEffect)
    ensures r.1.PostRecipes? <==> e.GetRecipesClicked? && |p.ingredients| > 0
  {
    match e
    case Typed(text) => (p.(input := text), NoEffect)
    case AddClicked => (AddIngredient(p), NoEffect)
    case KeyPressed(key) => if key == "Enter" then (AddIngredient(p), NoEffect) else (p, NoEffect)
    case RemoveClicked(name) => (RemoveIngredient(p, name), NoEffect)
    case ClearClicked => (ClearIngredients(p), NoEffect)
    case GetRecipesClicked => GetRecipes(p)
    case RecipesArrived(reply) => ReceiveRecipes(p, reply)
    case HistoryClicked => (p, GetHistory)
    case HistoryArrived(reply) => ReceiveHistory(p, reply)
    case CloseClicked => (CloseModal(p), NoEffect)
    case ModalClicked(onBackdrop) => (ClickModal(p, onBackdrop), NoEffect)
  }

  /** The page after a sequence of events. */
  function Run(p: Page, es: seq<Event>): (q: Page)
    ensures |es| == 0 ==> q == p
    ensures (forall i :: 0 <= i < |es| ==> !ChangesList(es[i])) ==> q.ingredients == p.ingredients
    decreases |es|
  {
    if |es| == 0 then p else Run(Step(p, es[0]).0, es[1..])
  }

  /** Every event keeps the ingredient-list invariant. */
  lemma StepPreservesValid(p: Page, e: Event)
    requires Valid(p)
    ensures Valid(Step(p, e).0)
  {
    match e
    case AddClicked => Ingredients.AddPreservesValid(p.ingredients, p.input);
    case KeyPressed(_) => Ingredients.AddPreservesValid(p.ingredients, p.input);
    case RemoveClicked(name) => Ingredients.RemovePreservesValid(p.ingredients, name);
    case _ =>
  }

  /** Every page reached by a sequence of events from a valid page keeps the
      invariant. */
  lemma {:induction false} RunPreservesValid(p: Page, es: seq<Event>)
    requires Valid(p)
    ensures Valid(Run(p, es))
    decreases |es|
  {
    if |es| > 0 {
      StepPreservesValid(p, es[0]);
      RunPreservesValid(Step(p, es[0]).0, es[1..]);
    }
  }

  /** The initial page is valid, so every page reachable from it is too. */
  lemma ReachableValid(es: seq<Event>)
    ensures Valid(Run(InitialPage, es))
  {
    RunPreservesValid(InitialPage, es);
  }

  /** The request payload inherits the invariant: a non-empty list of distinct,
      trimmed, non-empty names. */
  lemma PayloadIsValid(p: Page)
    requires Valid(p)
    ensures GetRecipes(p).1.PostRecipes? ==>
      Ingredients.Valid(GetRecipes(p).1.payload) && |GetRecipes(p).1.payload| > 0
  {
  }

  /** A reply carrying an error leaves the loading card in place. */
  lemma ErrorKeepsLoading(p: Page, reply: Reply<Recipe>)
    requires p.container == Loading
    requires reply.Unreadable? || HasError(reply)
    ensures ReceiveRecipes(p, reply).0.container == Loading
    ensures ReceiveRecipes(p, reply).1.Alert?
  {
  }

  /** A non-empty recipe list shows one card per recipe, in reply order, and
      the cards give back the recipes they show. */
  lemma CardsShowRecipes(p: Page, rs: seq<Recipe>)
    requires |rs| > 0
    ensures ReceiveRecipes(p, Json(None, Some(rs))).0.container.Cards?
    ensures var cards := ReceiveRecipes(p, Json(None, Some(rs))).0.container.cards;
      |cards| == |rs|
      && forall i :: 0 <= i < |rs| ==>
        Recipe(cards[i].name, cards[i].description, cards[i].prepTime, cards[i].difficulty) == rs[i]
  {
  }
}
