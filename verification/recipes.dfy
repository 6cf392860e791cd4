/**
 * The records the store exchanges with the recipe API and the two
 * normalisations that turn the API's snake_case shape into the
 * application's camelCase shape: a full recipe (createRecipeObject) and a
 * search-result entry (the projection inside loadSearchResults).
 */
module Recipes {
  import opened Wrappers

  /** The two ways an operation of the store fails; both are re-thrown to the caller unchanged. */
  datatype AppError = FetchError(message: string) | ValidationError(message: string)

  /** An ingredient as the API sends it: a numeric quantity or null, a unit and a description. */
  datatype Ingredient = Ingredient(quantity: Option<real>, unit: string, description: string)

  /** `data.data.recipe` of a recipe response, in the API's field names. */
  datatype RawRecipe = RawRecipe(
    id: string, title: string, publisher: string,
    source_url: string, image_url: string,
    servings: real, cooking_time: real,
    ingredients: seq<Ingredient>, key: Option<string>)

  /** A recipe in the application's field names; `key` is present only for recipes the user uploaded. */
  datatype RecipeData = RecipeData(
    id: string, title: string, publisher: string,
    sourceURL: string, image: string,
    servings: real, cookingTime: real,
    ingredients: seq<Ingredient>, key: Option<string>)

  /** One element of `data.data.recipes` of a search response. */
  datatype RawResult = RawResult(id: string, title: string, publisher: string, image_url: string, key: Option<string>)

  /** A search-result entry as the list view reads it. */
  datatype SearchResult = SearchResult(id: string, title: string, publisher: string, image: string, key: Option<string>)

  /** JavaScript truthiness of a field that is absent or a string: present and not the empty string. */
  predicate Truthy(key: Option<string>) {
    key.Some? && key.value != ""
  }

  /** The spread `...(x.key && { key: x.key })`: the key is kept only when it is truthy. */
  function CarryKey(key: Option<string>): (r: Option<string>)
    ensures r.Some? <==> Truthy(key)
    ensures r.Some? ==> r == key
  {
    if Truthy(key) then key else None
  }

  /** createRecipeObject: rename the raw recipe's fields to the application's names. */
  function CreateRecipeObject(raw: RawRecipe): (r: RecipeData)
    ensures r.id == raw.id && r.title == raw.title && r.publisher == raw.publisher
    ensures r.sourceURL == raw.source_url && r.image == raw.image_url
    ensures r.servings == raw.servings && r.cookingTime == raw.cooking_time
    ensures r.ingredients == raw.ingredients
    ensures r.key == CarryKey(raw.key)
  {
    RecipeData(raw.id, raw.title, raw.publisher, raw.source_url, raw.image_url,
               raw.servings, raw.cooking_time, raw.ingredients, CarryKey(raw.key))
  }

  /** The reverse renaming: the raw record in which the API would send `d`. */
  function ToRaw(d: RecipeData): (raw: RawRecipe) {
    RawRecipe(d.id, d.title, d.publisher, d.sourceURL, d.image,
              d.servings, d.cookingTime, d.ingredients, d.key)
  }

  /**
   * Normalisation loses nothing but an empty key: two raw recipes normalise
   * to the same record exactly when they agree on every field and on the key
   * up to "absent or empty".
   */
  lemma CreateRecipeObjectInjective(a: RawRecipe, b: RawRecipe)
    ensures CreateRecipeObject(a) == CreateRecipeObject(b) <==>
            a.(key := None) == b.(key := None) && CarryKey(a.key) == CarryKey(b.key)
  {
  }

  /** Every record whose key is absent or non-empty is the normalisation of its own raw form. */
  lemma CreateRecipeObjectRoundTrip(d: RecipeData)
    requires d.key != Some("")
    ensures CreateRecipeObject(ToRaw(d)) == d
  {
  }

  /** The projection of one raw search entry. */
  function ProjectResult(raw: RawResult): (r: SearchResult)
    ensures r.id == raw.id && r.title == raw.title && r.publisher == raw.publisher
    ensures r.image == raw.image_url
    ensures r.key == CarryKey(raw.key)
  {
    SearchResult(raw.id, raw.title, raw.publisher, raw.image_url, CarryKey(raw.key))
  }

  /** `recipes.map(...)` in loadSearchResults: one entry per raw entry, in the same order. */
  function ProjectResults(raws: seq<RawResult>): (r: seq<SearchResult>)
    ensures |r| == |raws|
    ensures forall i :: 0 <= i < |raws| ==> r[i] == ProjectResult(raws[i])
  {
    if |raws| == 0 then [] else [ProjectResult(raws[0])] + ProjectResults(raws[1..])
  }

  /** The projection and the full normalisation agree on every field a search entry has. */
  lemma ProjectionAgreesWithRecipe(raw: RawRecipe)
    ensures var s := ProjectResult(RawResult(raw.id, raw.title, raw.publisher, raw.image_url, raw.key));
            var d := CreateRecipeObject(raw);
            s == SearchResult(d.id, d.title, d.publisher, d.image, d.key)
  {
  }
}
