# Recipe suggestion page: ingredient list, recipe request and fallback recipes

This project models the sequential logic of a small recipe-suggestion web app
in Dafny and proves properties of it.

- **The browser page** (`script.js`) is modelled as a pure state machine. Its
  state is the ingredient list (an ordered `seq<string>`), the text in the
  input field, what the recipes container shows, the history modal and the
  list inside it. Every handler is a pure transition that returns the next
  page and at most one side effect: an alert, the `POST /get_recipes`
  request, or the `GET /recipe_history` request. The key invariant is
  `Ingredients.Valid`: names are distinct, non-empty and trimmed at both
  ends. Add, remove and clear preserve it, so every page reachable by any
  sequence of events keeps it, and the recipe request's payload inherits it.
- **The `/get_recipes` endpoint** (`app.py`) is modelled in two parts. The
  first is its guard against a missing or empty ingredient list. The second
  is the three mock recipes it returns when generating or storing recipes
  fails. The mock recipes are built by string templating over the list: its
  first element (or a default), and the `', '`-join of the whole list and of
  its first two elements.
- **Flow** connects the two sides. The page's guard is at least as strict as
  the server's. A failed generation ends with three fallback cards on the
  page. A `401` error leaves the page showing the loading card.

Modules: `Text` (the `trim`, `', '.join` and `xs[:2]` helpers),
`Ingredients` (the list operations), `Board` (the page), `Server` (the
endpoint), `Flow` (client and server together), `RecipeData` and `Optional`
(shared records).

Behaviours of the code that the model keeps:

- `data.error` is checked by JavaScript truthiness, so an empty-string error
  counts as no error. A reply with neither a truthy `error` nor `recipes`
  reaches `displayRecipes`. That function empties the container and then
  throws, so the page shows an empty container (`Blank`) and the generic
  failure alert. The history handler behaves the same way: it empties the
  list, does not open the modal, and alerts.
- A reply carrying an error leaves the container as it was. After a request,
  that means the "Finding recipes..." card stays on screen.
- If the request body is not a JSON object, `request.get_json()` at
  `app.py:88` either raises or returns something without a `get` method, so
  `data.get` raises; either way the exception is raised inside the `try`. The `except` branch then reads `ingredients` before it has been
  assigned, so the exception escapes the handler. This is modelled as
  `Crash`, which the page sees as an unreadable reply.
- In the `except` branch the list is never empty in practice, because the
  guard has already returned. So the `'Ingredient'`/`'Ingredients'`
  defaults cannot be reached through the endpoint. `Server.MockRecipes`
  still models them for every list.

## Model

| member | source | states |
|---|---|---|
| Text.Trim | script.js:26 | the trimmed text is no longer than the input and has no whitespace at either end |
| Text.TrimSurrounded | script.js:26 | the trimmed text is a contiguous piece of the input with nothing but whitespace before and after it |
| Text.TrimOfPadded | script.js:26 | trimming any whitespace-padded string whose core has no whitespace at its ends returns exactly that core, which fixes trim's result uniquely |
| Text.TrimIdempotent | script.js:26 | trimming twice is the same as trimming once |
| Text.TrimEggExample | script.js:26 | only the ends are trimmed: `"  egg "` becomes `"egg"` |
| Text.Join | app.py:150-162 | the `', '`-join of no names is the empty string, and a non-empty join starts with the first name |
| Text.Take | app.py:156 | `xs[:2]` keeps the first `min(2, len(xs))` names, unchanged and in order |
| Text.JoinLength | app.py:150 | the `', '`-join is as long as all elements plus one separator between each pair of neighbours |
| Text.JoinElementAt | app.py:150 | element i appears unchanged at its offset in the joined string |
| Text.JoinSeparatorAt | app.py:150 | right after every element except the last comes exactly one separator |
| Text.OffsetStep | app.py:150 | the offset of element i+1 is the offset of element i plus the length of element i and one separator |
| Text.JoinContains | app.py:150 | every element of the list occurs in the joined string |
| Text.JoinSnoc | app.py:150 | joining a list with one more element appends a separator and that element |
| Ingredients.Add | script.js:26-28 | the result grows by at most one entry, keeps the old list as its prefix, and grows exactly when the trimmed input is non-empty and not yet listed (exact, case-sensitive match); its members are the old ones plus the trimmed input when it is non-empty |
| Ingredients.AddAppends | script.js:27-28 | a successful add appends the trimmed input as the new last entry |
| Ingredients.AddIdempotent | script.js:27 | adding the same text twice is the same as adding it once |
| Ingredients.AddTwiceKeepsOne | script.js:27 | adding the same non-blank text twice to an empty list leaves exactly one entry |
| Ingredients.AddPreservesValid | script.js:26-28 | add keeps the list free of duplicates, empty names and untrimmed names |
| Ingredients.Remove | script.js:52 | the result's members are exactly the old members other than the key; it is never longer; it is the identity when the key is not listed |
| Ingredients.RemoveUndoesAdd | script.js:52 | removing the name that an add just inserted gives back the list as it was before the add |
| Ingredients.RemoveConcat | script.js:52 | remove distributes over concatenation, so the entries that remain keep their relative order |
| Ingredients.RemoveCounts | script.js:52 | every copy of the key is gone and every other name keeps its multiplicity |
| Ingredients.RemoveAtPosition | script.js:52 | on a valid list, removing a listed name deletes exactly its single position |
| Ingredients.RemoveIdempotent | script.js:52 | removing twice is the same as removing once |
| Ingredients.RemovePreservesValid | script.js:52 | remove keeps the list valid |
| Ingredients.Clear | script.js:60 | clearing yields the empty list |
| Ingredients.ClearIdempotentAndValid | script.js:59-61 | clearing twice is the same as clearing once, and the cleared list is valid |
| Board.AddIngredient | script.js:25-33 | the page's list becomes the list after add; the input is emptied exactly when the list changed, and otherwise nothing changes |
| Board.RemoveIngredient | script.js:50-54 | only the list changes, and it becomes the filtered list (every copy of the name dropped, the rest in their order): the name is no longer listed, every other name stays listed or unlisted as before, and an unlisted name changes nothing |
| Board.ClearIngredients | script.js:59-62 | only the list changes, and it becomes empty |
| Board.GetRecipes | script.js:65-95 | an empty list gives the alert "Please add at least one ingredient" and leaves the page unchanged; a non-empty list sets the container to Loading and posts exactly the current list |
| Board.RenderCards | script.js:133-152 | one card per recipe, in reply order, each carrying that recipe's name, description, prep time and difficulty |
| Board.DisplayRecipes | script.js:111-131 | an empty recipe list shows exactly the "no recipes" card; a non-empty one shows the rendered cards |
| Board.HasError | script.js:98-101 | `if (data.error)` by JavaScript truthiness: an error is reported exactly when it is present and non-empty, so a missing or empty-string error counts as none |
| Board.ReceiveRecipes | script.js:96-107 | the container changes only on a readable reply without a truthy error, and an alert is raised exactly when no recipe list gets displayed; an unreadable reply or a truthy error only alerts; a reply without recipes blanks the container and alerts; otherwise the recipes are displayed; the list, input and modal never change |
| Board.RenderHistory | script.js:171-192 | one history row per entry, in order, with the entry's fields and timestamp |
| Board.ReceiveHistory | script.js:157-200 | the modal becomes visible exactly on a readable reply with recipes and no error, in which case the list shows the placeholder or one row per entry; errors only alert; a reply without recipes empties the list and alerts |
| Board.CloseModal | script.js:204-206 | closing hides the modal and changes nothing else |
| Board.ClickModal | script.js:225-229 | a click hides the modal exactly when it lands on the backdrop (or the modal was already hidden); nothing else changes |
| Board.Step | script.js:209-229 | only add, Enter, remove and clear events change the list; keys other than Enter do nothing; a request is posted exactly on the get-recipes click with a non-empty list |
| Board.Run | script.js:209-229 | replaying no events leaves the page unchanged, and a sequence without add, key, remove or clear events leaves the ingredient list unchanged |
| Board.StepPreservesValid | script.js:209-229 | every event keeps the ingredient-list invariant |
| Board.RunPreservesValid | script.js:22-62 | every page reached by any sequence of events from a valid page is valid |
| Board.ReachableValid | script.js:22-62 | the initial page (empty list) is valid, so every page reachable from it by any sequence of events is valid |
| Board.PayloadIsValid | script.js:94 | the posted payload is non-empty and inherits the invariant |
| Board.ErrorKeepsLoading | script.js:98-101 | a reply that is unreadable or carries an error leaves the loading card in place and alerts |
| Board.CardsShowRecipes | script.js:133-152 | a non-empty recipe list yields cards that give back exactly the recipes, in order |
| Server.FirstOr | app.py:149 | the first ingredient, or the default when the list is empty |
| Server.MockRecipes | app.py:147-166 | the fallback always has exactly three recipes |
| Server.GetRecipes | app.py:86-167 | a non-object body crashes the handler; a missing or empty list gives status 400 with "No ingredients provided"; status 401 comes exactly from generated recipes with no user in the session; a 200 reply carries either the three mock recipes or, when generation succeeded, a user is present and storing succeeded, the generated recipes |
| Server.EmptyIngredientsRefused | app.py:89-92 | a missing or empty ingredient list yields exactly the 400 error and no recipes |
| Server.FailureFallsBack | app.py:144-167 | when generation fails, or storing fails for a signed-in user, on a non-empty list the reply is 200 with the three mock recipes |
| Server.UnauthenticatedRefused | app.py:121-123 | generated recipes with no user in the session are answered 401 with "User not authenticated" |
| Server.GeneratedReturned | app.py:125-140 | generated recipes that were stored for a signed-in user are returned unchanged with status 200 |
| Server.MockFixedFields | app.py:151-164 | prep times '20 minutes', '25 minutes', '35 minutes' and difficulties 'Easy', 'Medium', 'Easy' regardless of input |
| Server.MockNamesUseFirst | app.py:149-161 | the three names depend only on the first ingredient, and each one contains it |
| Server.MockNamesDefault | app.py:149-161 | with no ingredients the names use 'Ingredient', 'Ingredient' and 'Ingredients' |
| Server.MockDescriptionsMention | app.py:150-162 | the first and third descriptions contain every ingredient; the second contains the first two |
| Server.MockDescriptionsFollowJoin | app.py:150-162 | two lists give equal first or third descriptions exactly when their `', '`-joins are equal, and equal second descriptions exactly when the joins of their first two elements are equal |
| Server.MockSecondIgnoresTail | app.py:156 | the second recipe depends only on the first two ingredients |
| Flow.ToClient | script.js:96-107 | a crash reaches the page as an unreadable reply; a JSON reply carries exactly one of `error` and `recipes`; the server's recipes and error text arrive unchanged |
| Flow.PostedListPassesServerGuard | app.py:89-92 | whatever the page posts gets past the server's empty-list guard without crashing |
| Flow.FallbackShowsThreeCards | app.py:144-167 | when generation fails, the page ends up showing exactly the three cards rendered from the mock recipes built from the list it sent: names, descriptions, prep times and difficulties |
| Flow.UnauthenticatedLeavesLoading | app.py:121-123 | a session without a user gets the 401 error, and the page keeps showing the loading card |
| Flow.EggTrims | script.js:26 | `"egg"` and `"egg "` trim to the same name |
| Flow.AddTrimsExample | script.js:26-31 | typing `"  egg "` and pressing add stores `"egg"` and empties the input |
| Flow.AddTwiceExample | script.js:27 | adding `"egg"` and then `"egg "` leaves a single entry |
| Flow.PancakeExample | script.js:133-152 | with `egg` and `flour` listed, a one-recipe reply shows exactly that recipe's card |
| Flow.EmptyListSendsNothing | script.js:66-69 | asking for recipes with an empty list sends nothing and changes nothing |

## Left out

- DOM construction: the tag and card markup, labels such as "Ready in:", `innerHTML` escaping and the remove key's round trip through a `data-ingredient` attribute. Cards and tags are modelled as their fields, and the remove key is the literal name.
- Event-listener wiring and focus handling are left out as UI plumbing. `console.error` is left out too. Alerts are modelled as an `Alert` effect.
- `fetch`, JSON parsing and asynchrony. Replies are parameters. The race in which the last of several overlapping replies wins is not modelled, because it needs concurrency. `Board.ReceiveRecipes` does accept a reply in any page state.
- The history timestamp is kept as a raw number. Its `toLocaleDateString('en-US', …)` formatting depends on the host locale and date library.
- Text.Trim: its whitespace predicate `Text.IsWhitespace` covers the ASCII whitespace characters, NBSP, BOM and the line/paragraph separators, not the full Unicode space-separator category that JavaScript's `trim` strips.
- JSON values of unexpected types are not modelled: a non-string `error`, or `ingredients` that is a string rather than a list. An `ingredients` of `null` is treated like a missing field, because both are falsy.
- Flask routing, sessions, the MySQL connection, schema creation, the inserts and the history query are foreign calls and database I/O. The session user and the success of the inserts are parameters of `Server.GetRecipes`.
- The `print` of the exception at `app.py:145` is logging, and is left out.
- The OpenAI call and the parsing of its output are an external service. Their outcome is the `Generation` parameter.
- `config.py` only reads environment variables and is not part of this model.
