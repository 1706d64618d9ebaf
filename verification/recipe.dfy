/** The records exchanged between the browser and the server. */
module RecipeData {

  /** One recipe as the server sends it (`name`, `description`, `prep_time`,
      `difficulty`). */
  datatype Recipe = Recipe(name: string, description: string, prepTime: string, difficulty: string)

  /** One row of the recipe history: a recipe and its creation timestamp,
      kept as an opaque number. */
  datatype HistoryEntry = HistoryEntry(recipe: Recipe, createdAt: int)
}
