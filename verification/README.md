# Recipe store model

A Dafny model of the state module of a recipe-browsing web client
(`src/js/model.js`). The module keeps one state tree: the recipe being viewed,
the user's bookmarks, and a search section with a query, results, a fixed
number of results per page and the current page. The operations modelled are:

- loading a recipe and normalising it from the API's snake_case fields;
- loading search results and projecting them;
- computing a page of results;
- adding and deleting bookmarks, with local storage written after each change;
- uploading a recipe from a form, which includes parsing its ingredient fields.

Files and modules:

- `wrappers.dfy` (`Wrappers`): `Option` (undefined/null) and `Result` (a value or the error thrown).
- `js_array.dfy` (`JsArray`): `Array.prototype.slice` and `splice(start, 1)`. A negative index counts from the end and every index is clamped to the length.
- `recipes.dfy` (`Recipes`): the raw and normalised records, `createRecipeObject`, the search projection and the rule that carries the `key` field only when it is truthy.
- `pagination.dfy` (`Pagination`): the page window `[(p-1)*rpp, p*rpp)`.
- `ingredient_form.dfy` (`IngredientForm`): the ingredient filter and the `split(',')` parser of `uploadRecipe`, and the payload it posts.
- `store.dfy` (`Store`): the `State` class and its operations. Recipes are objects of class `Recipe`, because the source shares them. `uploadRecipe` bookmarks `state.recipe` itself, so the new last bookmark and the current recipe are one object, and the `bookmarked = true` written through one is seen through the other. The model proves this (`Store.State.UploadRecipe`). The initial empty recipe object `{}` is `null`.

Results of the remote API are parameters of the operations that fetch them. Local storage is the ghost field `persisted`: `None` when the store has no bookmark entry, otherwise the bookmark list as last serialised.

Behaviour of the code that is easy to misread, and that the model keeps as written:

- A negative page number counts its window from the end of the results, because `slice` reads both bounds from the end. For example, page -1 with 10 per page is `slice(-20, -10)`. When that window lies within the list, the page is exactly that window (`Pagination.NegativePageCountsFromEnd`). When it straddles the first result, the page is the part from index 0 on (`Pagination.NegativePageStraddlesStart`). It is empty when it falls wholly before the first result (`Pagination.NegativePageBeforeStart`). Page 0 is always empty.
- The `key` field is kept only when it is truthy. A key that is present but empty is dropped, like an absent one.
- `loadRecipe` sets the `bookmarked` flag by comparing the bookmarks with the REQUESTED id, not with the id of the recipe that came back.
- `deleteBookmark` with an id that no bookmark has removes the last bookmark (`findIndex` gives -1 and `splice(-1, 1)` removes the last element). The model states this as it is: `Store.DeleteMissingRemovesLast`.
- Start-up reads the bookmarks from storage and then clears the store (`clearBookmarks`). After the constructor, `persisted` is `None` while `bookmarks` holds what was read. The model keeps this behaviour.

## Model

| member | source | states |
|---|---|---|
| JsArray.Slice | src/js/model.js:74 | slice never returns more elements than the array holds; JsArray.SliceWindow gives its exact result for non-negative bounds |
| JsArray.SpliceOne | src/js/model.js:92 | splice(start, 1) removes exactly one element when the resolved start lies inside the array and none otherwise, and removes only elements the array held |
| JsArray.SliceWindow | src/js/model.js:74 | for 0 <= start <= end, slice keeps exactly the indices [start, min(end, length)) in order, and nothing when start is past the end |
| JsArray.SpliceOneAt | src/js/model.js:92 | splice(i, 1) at a valid index removes exactly element i and keeps the others in order |
| JsArray.SpliceOneMinusOne | src/js/model.js:91-92 | splice(-1, 1) removes the last element, and leaves an empty array unchanged |
| Recipes.CarryKey | src/js/model.js:33 | the normalised key is present exactly when the raw key is truthy (present and non-empty), and then equals it |
| Recipes.CreateRecipeObject | src/js/model.js:21-34 | the normalised recipe renames source_url to sourceURL, image_url to image and cooking_time to cookingTime, copies id, title, publisher, servings and ingredients, and has the raw key exactly when that key is truthy |
| Recipes.CreateRecipeObjectInjective | src/js/model.js:21-34 | two raw recipes normalise alike exactly when they agree on every field, treating an absent key and an empty key as equal: normalisation loses nothing else |
| Recipes.CreateRecipeObjectRoundTrip | src/js/model.js:21-34 | renaming back to source_url/image_url/cooking_time and normalising again gives the same record, when its key is absent or non-empty |
| Recipes.ProjectResult | src/js/model.js:56-62 | a search entry copies id, title and publisher, takes image from image_url, and has the raw key exactly when that key is truthy |
| Recipes.ProjectResults | src/js/model.js:55-63 | the projected results have the same length and order as the response, entry by entry |
| Recipes.ProjectionAgreesWithRecipe | src/js/model.js:55-63 | projecting a recipe's search fields gives the same values as normalising the full recipe, the key rule included |
| Pagination.PageOf | src/js/model.js:70-75 | a page never holds more than resultsPerPage results, for every page number |
| Pagination.PageWindow | src/js/model.js:72-74 | for page >= 1 the page holds exactly results[(page-1)*rpp .. min(page*rpp, n)) in order, and is empty when it starts past the end |
| Pagination.PageBeyondEnd | src/js/model.js:72-74 | a page that starts at or after the last result is empty, with no error |
| Pagination.PageZero | src/js/model.js:72-74 | page 0 is empty |
| Pagination.NegativePageCountsFromEnd | src/js/model.js:72-74 | a negative page counts its window from the end of the results; when that window lies within the results, the page is exactly results[n + (page-1)*rpp .. n + page*rpp) |
| Pagination.NegativePageStraddlesStart | src/js/model.js:72-74 | a negative page whose window straddles the first result shows results[0 .. n + page*rpp), the part of the window that lies within the results |
| Pagination.NegativePageBeforeStart | src/js/model.js:72-74 | a negative page whose window falls wholly before the first result is empty, because slice clamps both bounds to 0 |
| Pagination.PagesTile | src/js/model.js:72-74 | pages 1..k placed one after another are exactly the first min(k*rpp, n) results: no result is skipped or repeated |
| Pagination.TwentyFiveResults | src/js/model.js:72-74 | with 10 per page and 25 results, page 1 holds results 0-9 and page 3 holds results 20-24 |
| IngredientForm.Split | src/js/model.js:122 | split(',') yields one part more than there are commas, no part contains a comma, and joining the parts with ',' gives back the value |
| IngredientForm.SplitJoin | src/js/model.js:122 | split is the inverse of join on comma-free parts |
| IngredientForm.ParseIngredient | src/js/model.js:122-130 | a value parses exactly when it has two commas, and fails with the format error otherwise; on success the value is quantity,unit,description with comma-free, untrimmed parts, and an empty quantity is null |
| IngredientForm.ParseIngredientRoundTrip | src/js/model.js:122-130 | writing an ingredient as quantity,unit,description and parsing it gives the ingredient back |
| IngredientForm.ParseIngredientWellFormedExample | src/js/model.js:122-130 | "2,cups,flour" parses to quantity "2", unit "cups", description "flour" |
| IngredientForm.ParseIngredientEmptyQuantityExample | src/js/model.js:130 | ",,salt" parses to a null quantity, an empty unit and the description "salt" |
| IngredientForm.ParseIngredientTwoPartsExample | src/js/model.js:124-127 | "2,cups" is rejected with "Wrong Ingredient Format! Please use the correct Format" |
| IngredientForm.StartsWith | src/js/model.js:120 | startsWith holds exactly when the prefix is no longer than the name and matches it character by character |
| IngredientForm.Kept | src/js/model.js:119-120 | the kept values are never empty and there are no more of them than form entries |
| IngredientForm.KeptConcat | src/js/model.js:119-120 | the filter works entry by entry: what is kept from a form is what is kept from its first part followed by what is kept from the rest |
| IngredientForm.KeptSingle | src/js/model.js:120 | one entry is kept, as its value, exactly when its name starts with "ingredient" and its value is not empty |
| IngredientForm.ParseAll | src/js/model.js:121-131 | parsing all kept values succeeds exactly when each has two commas, and then gives one ingredient per value in order; otherwise it fails with the format error |
| IngredientForm.Field | src/js/model.js:134-139 | a form field is defined exactly when the form has an entry of that name, and then holds that entry's value |
| IngredientForm.BuildPayload | src/js/model.js:119-141 | the payload is built exactly when every kept ingredient value is well formed; it carries one parsed ingredient per kept value and the title, sourceUrl, image, publisher, cookingTime and servings fields under the API's names |
| Store.Snapshot | src/js/model.js:78 | the serialised bookmark list holds one record per bookmark, with its content and its current flag |
| Store.FindIndex | src/js/model.js:91 | findIndex gives -1 exactly when no bookmark has the id, and otherwise the first position that has it |
| Store.HasBookmark | src/js/model.js:42 | some is true exactly when some bookmark has the id |
| Store.AfterDelete | src/js/model.js:91-92 | the list after deleteBookmark always loses exactly one element when it is non-empty, whether or not the id is present, and never gains one |
| Store.DeleteRemovesFirstMatch | src/js/model.js:91-92 | when some bookmark has the id, deleting removes the first one that has it and keeps the rest in order |
| Store.DeleteMissingRemovesLast | src/js/model.js:91-92 | when no bookmark has the id, deleting removes the last bookmark, and does nothing to an empty list |
| Store.AddThenDelete | src/js/model.js:81-95 | adding a recipe whose id is not bookmarked and then deleting that id restores the bookmark list |
| Store.AddThenDeleteDuplicate | src/js/model.js:81-95 | if the id was already bookmarked, the same round trip removes the older entry and keeps the new one at the end |
| Store.Revive | src/js/model.js:105-108 | parsing the stored list gives one new recipe object per stored record, with the same content and flag |
| Store.State.constructor | src/js/model.js:10-19 | the initial state (no recipe, empty query and results, page 1); bookmarks read from storage when there is an entry; then storage cleared (lines 105-115) |
| Store.State.LoadRecipe | src/js/model.js:37-48 | on success the current recipe is a new object holding the normalised response, flagged bookmarked exactly when some bookmark has the requested id; on failure the error is passed on and the recipe is unchanged |
| Store.State.LoadSearchResults | src/js/model.js:50-68 | the query is stored even if the fetch fails; on success the results become the projected response; on failure the results are unchanged and the error is passed on; the page is untouched |
| Store.State.GetSearchResultsPage | src/js/model.js:70-75 | records the page (the current one when omitted) and returns its window: at most resultsPerPage results, results[(page-1)*rpp + k] at position k, empty past the end; only the page changes |
| Store.State.AddBookmark | src/js/model.js:81-88 | appends the recipe with no uniqueness check, sets the current recipe's flag to true exactly when the ids match and leaves it alone otherwise, and writes the list to storage |
| Store.State.DeleteBookmark | src/js/model.js:90-95 | removes the first bookmark with the id, or the last bookmark when none has it, or nothing from an empty list; sets the current recipe's flag to false exactly when it has the id; writes the list to storage |
| Store.State.UploadRecipe | src/js/model.js:117-152 | a malformed ingredient fails before anything is sent and changes nothing; a failed post changes nothing; on success the echoed recipe becomes the current recipe and is appended to the bookmarks as the same object, so it and its stored copy are flagged true |
| Store.AddFresh | src/js/model.js:81-88 | on the state: addBookmark for an id not yet bookmarked appends the recipe, flags the current recipe if it has that id and otherwise leaves its flag, keeps every earlier bookmark's flag, and leaves storage in step |
| Store.DeleteFresh | src/js/model.js:90-95 | on the state: deleteBookmark of that id right afterwards takes the recipe off the end again, unflags the current recipe if it has that id and otherwise leaves its flag, keeps every other bookmark's flag, and leaves storage in step |
| Store.AddThenDeleteRestores | src/js/model.js:81-95 | on the state: addBookmark then deleteBookmark for a new id leaves the bookmark list and every bookmark's flag as they were; the current recipe is unflagged if it has that id and otherwise keeps its flag; storage is in step afterwards, and equals its prior content when it was in step before |

## Left out

- `updateServings` (src/js/model.js:97-103) is not modelled. It is floating-point scaling of quantities: `quantity *= factor` turns a null quantity into 0 and an absent one into NaN, and every quantity becomes NaN or Infinity when the old servings are 0. The model has no real-number arithmetic for JavaScript numbers. For the same reason recipe content is immutable in the model: only the `bookmarked` flag is written.
- The `AJAX` helper (helpers.js) and `config.js` are not part of this model. Each fetch's outcome is a parameter, and a failure is passed on unchanged. URL building and the API constants are omitted, and `RESULTS_PER_PAGE` is a constructor parameter.
- The numeric coercions `+quantity`, `+newRecipe.cookingTime` and `+newRecipe.servings` (src/js/model.js:130, 138-139) are not modelled. The payload carries the text they would convert, and a quantity is that text or null. Servings and cooking times from the API are copied, never computed.
- `localStorage` is modelled only as the ghost field `persisted`. JSON serialisation and parsing are abstracted to records of values (`Store.StoredRecipe`). Storage contents that do not parse are not modelled.
- The submitted form is given as the list of its entries, in the order `Object.entries` returns them. Integer-like field names, which `Object.entries` lists first, do not occur among ingredient fields and are not modelled.
- The form is a list of entries, and nothing stops the list repeating a name, which a JavaScript object cannot do. With a repeated name, `IngredientForm.Field` returns the first entry and `IngredientForm.Kept` keeps every entry. Forms with repeated names do not correspond to any object the source can receive.
- Page numbers are integers. Fractional page numbers are not modelled.
- `async`/`await` suspension and operations that interleave while a fetch is pending are not modelled. Every operation runs to completion in one step.
- `console.log` calls and the `catch` blocks that only rethrow are not modelled. They have no effect on the state.
