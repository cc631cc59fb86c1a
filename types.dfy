/** The records shared by the backend and the frontend (Recipe, RecipeRequest,
    RecipeResponse, Ingredient, IngredientCategory). */
module Types {
  import opened Wrappers

  /** A recipe. `difficulty` is a plain string: nothing on the generation path checks
      it against "easy", "medium" and "hard". */
  datatype Recipe = Recipe(
    id: string,
    title: string,
    cuisine: string,
    ingredients: seq<string>,
    instructions: seq<string>,
    cookingTime: int,
    servings: int,
    difficulty: string,
    description: Option<string>,
    tags: Option<seq<string>>)

  datatype Preferences = Preferences(
    difficulty: Option<string>,
    maxCookingTime: Option<int>,
    servings: Option<int>)

  datatype RecipeRequest = RecipeRequest(
    ingredients: seq<string>,
    cuisine: string,
    preferences: Option<Preferences>)

  datatype RecipeResponse = RecipeResponse(recipes: seq<Recipe>, totalCount: int)

  datatype Ingredient = Ingredient(id: string, name: string, category: string)

  datatype IngredientCategory = IngredientCategory(name: string, ingredients: seq<Ingredient>)

  /** JavaScript truthiness of an optional string (undefined and "" are falsy). */
  predicate TruthyText(s: Option<string>) {
    s.Some? && s.value != ""
  }

  /** JavaScript truthiness of an optional number (undefined and 0 are falsy). */
  predicate TruthyNumber(n: Option<int>) {
    n.Some? && n.value != 0
  }
}
