/**
 * What every import parser produces: a `ParsedRecipe` in the text form the
 * simple recipe form edits (one ingredient per line, one step per line), and
 * a `ParseResult` that carries either that recipe or a user-facing message.
 */
module ParserTypes {
  import opened Wrappers
  import opened Json
  import opened RecipeTypes

  /** `ParsedRecipe.source_type`. */
  datatype ImportSource = FromUrl | FromPaste | FromPhoto

  /**
   * `ParsedRecipe`. Numbers are integers; `imageUrl` is the JSON value the
   * page gave, which the app expects to be a string.
   */
  datatype ParsedRecipe = ParsedRecipe(
    title: string,
    category: Category,
    appliance: Option<Appliance>,
    ingredientsText: string,
    stepsText: string,
    prepTime: Option<int>,
    cookTime: Option<int>,
    servings: Option<int>,
    difficulty: Option<Difficulty>,
    sourceType: ImportSource,
    sourceUrl: Option<string>,
    imageUrl: Option<Json>)

  /** `ParseResult`: `{ success: true, recipe }` or `{ success: false, error }`. */
  datatype ParseResult = Parsed(recipe: ParsedRecipe) | Failed(error: string)

  /** The `success && recipe.ingredients_text` test the video resolver applies. */
  predicate HasIngredients(r: ParseResult) {
    r.Parsed? && r.recipe.ingredientsText != ""
  }
}
