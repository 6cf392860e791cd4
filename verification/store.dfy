/**
 * The application state of the recipe browser and the operations that
 * change it. The state is one object; recipes are objects too, because the
 * source shares them: the current recipe can also be an entry of the
 * bookmark list (uploadRecipe bookmarks `state.recipe` itself), and a write
 * to its `bookmarked` flag is then seen through both.
 *
 * The remote API is not modelled: every operation that fetches takes the
 * fetch's outcome as a parameter. Local storage is the ghost field
 * `persisted`, the bookmark list as last serialised (None: no entry).
 */
module Store {
  import opened Wrappers
  import opened Recipes
  import opened JsArray
  import opened Pagination
  import opened IngredientForm

  /** A recipe object: its content is fixed once built; only the `bookmarked` flag is written afterwards (None: no flag yet). */
  class Recipe {
    const data: RecipeData
    var bookmarked: Option<bool>

    constructor (data: RecipeData, bookmarked: Option<bool>)
      ensures this.data == data && this.bookmarked == bookmarked
    {
      this.data := data;
      this.bookmarked := bookmarked;
    }
  }

  /** A recipe as serialised into local storage: its content and its flag at the time of writing. */
  datatype StoredRecipe = StoredRecipe(data: RecipeData, bookmarked: Option<bool>)

  /** The bookmark list as JSON.stringify records it: a value per object, taken now. */
  ghost function Snapshot(bs: seq<Recipe>): (r: seq<StoredRecipe>)
    reads bs
    ensures |r| == |bs|
    ensures forall i :: 0 <= i < |bs| ==> r[i] == StoredRecipe(bs[i].data, bs[i].bookmarked)
  {
    if |bs| == 0 then []
    else Snapshot(bs[..|bs| - 1]) + [StoredRecipe(bs[|bs| - 1].data, bs[|bs| - 1].bookmarked)]
  }

  /** `bookmarks.findIndex(el => el.id === id)`: the first position holding that id, or -1. */
  function FindIndex(bs: seq<Recipe>, id: string): (k: int)
    ensures -1 <= k < |bs|
    ensures k == -1 <==> forall i :: 0 <= i < |bs| ==> bs[i].data.id != id
    ensures 0 <= k ==> bs[k].data.id == id && forall i :: 0 <= i < k ==> bs[i].data.id != id
  {
    if |bs| == 0 then -1
    else if bs[0].data.id == id then 0
    else
      var k := FindIndex(bs[1..], id);
      assert forall i :: 1 <= i < |bs| ==> bs[1..][i - 1] == bs[i];
      if k == -1 then -1 else k + 1
  }

  /** `bookmarks.some(el => el.id === id)`. */
  function HasBookmark(bs: seq<Recipe>, id: string): (b: bool)
    ensures b <==> exists i :: 0 <= i < |bs| && bs[i].data.id == id
  {
    if |bs| == 0 then false
    else
      assert forall i :: 1 <= i < |bs| ==> bs[1..][i - 1] == bs[i];
      bs[0].data.id == id || HasBookmark(bs[1..], id)
  }

  /**
   * The bookmark list after deleteBookmark(id): `splice(findIndex(...), 1)`.
   * A non-empty list always loses exactly one element, whether or not the id is there.
   */
  function AfterDelete(bs: seq<Recipe>, id: string): (r: seq<Recipe>)
    ensures |r| == if |bs| == 0 then 0 else |bs| - 1
    ensures multiset(r) <= multiset(bs)
  {
    SpliceOne(bs, FindIndex(bs, id))
  }

  /** When some bookmark has the id, deleting removes the first such bookmark and keeps the others in order. */
  lemma DeleteRemovesFirstMatch(bs: seq<Recipe>, id: string, i: int)
    requires 0 <= i < |bs| && bs[i].data.id == id
    requires forall j :: 0 <= j < i ==> bs[j].data.id != id
    ensures AfterDelete(bs, id) == bs[..i] + bs[i + 1..]
  {
    assert FindIndex(bs, id) == i;
  }

  /** When no bookmark has the id, deleting removes the LAST bookmark: findIndex gives -1 and splice(-1, 1) takes the last element. */
  lemma DeleteMissingRemovesLast(bs: seq<Recipe>, id: string)
    requires forall i :: 0 <= i < |bs| ==> bs[i].data.id != id
    ensures AfterDelete(bs, id) == if |bs| == 0 then [] else bs[..|bs| - 1]
  {
    SpliceOneMinusOne(bs);
  }

  /** Bookmarking a recipe whose id is not yet bookmarked and then deleting that id restores the list. */
  lemma AddThenDelete(bs: seq<Recipe>, r: Recipe)
    requires forall i :: 0 <= i < |bs| ==> bs[i].data.id != r.data.id
    ensures AfterDelete(bs + [r], r.data.id) == bs
  {
    var added := bs + [r];
    assert forall j :: 0 <= j < |bs| ==> added[j] == bs[j];
    DeleteRemovesFirstMatch(added, r.data.id, |bs|);
    assert added[..|bs|] == bs;
  }

  /**
   * Without that precondition the round trip fails: if the id is already
   * bookmarked at i, delete removes the OLD entry and the new one stays.
   */
  lemma AddThenDeleteDuplicate(bs: seq<Recipe>, r: Recipe, i: int)
    requires 0 <= i < |bs| && bs[i].data.id == r.data.id
    requires forall j :: 0 <= j < i ==> bs[j].data.id != r.data.id
    ensures AfterDelete(bs + [r], r.data.id) == bs[..i] + bs[i + 1..] + [r]
  {
    var added := bs + [r];
    assert forall j :: 0 <= j < |bs| ==> added[j] == bs[j];
    DeleteRemovesFirstMatch(added, r.data.id, i);
    assert added[..i] == bs[..i];
    assert added[i + 1..] == bs[i + 1..] + [r];
  }

  /** JSON.parse of the stored list: one new recipe object per stored record, in order. */
  method Revive(stored: seq<StoredRecipe>) returns (bs: seq<Recipe>)
    ensures Snapshot(bs) == stored
    ensures forall i :: 0 <= i < |bs| ==> fresh(bs[i])
  {
    bs := [];
    for n := 0 to |stored|
      invariant |bs| == n
      invariant forall k :: 0 <= k < n ==> fresh(bs[k])
      invariant forall k :: 0 <= k < n ==> bs[k].data == stored[k].data && bs[k].bookmarked == stored[k].bookmarked
    {
      var r := new Recipe(stored[n].data, stored[n].bookmarked);
      bs := bs + [r];
    }
  }

  /** The state tree: current recipe (null for the initial empty object), bookmarks, and the search part. */
  class State {
    var recipe: Recipe?
    var bookmarks: seq<Recipe>
    var query: string
    var results: seq<SearchResult>
    const resultsPerPage: nat
    var page: int
    ghost var persisted: Option<seq<StoredRecipe>>

    /**
     * Storage holds the bookmark list as it is now: `persisted == Some(Snapshot(bookmarks))`,
     * written out pointwise (Snapshot's own ensures) so that a later write to
     * another field does not make the solver re-frame Snapshot.
     */
    ghost predicate Persisted()
      reads this, bookmarks
    {
      persisted.Some? && |persisted.value| == |bookmarks| &&
      forall i :: 0 <= i < |bookmarks| ==> persisted.value[i] == StoredRecipe(bookmarks[i].data, bookmarks[i].bookmarked)
    }

    /**
     * Module start-up: the initial state, then init (the bookmarks stored
     * under 'bookmarks', when there is a non-empty entry), then
     * clearBookmarks, which empties the store right after it was read.
     */
    constructor (resultsPerPage: nat, stored: Option<seq<StoredRecipe>>)
      ensures this.resultsPerPage == resultsPerPage
      ensures recipe == null && query == "" && results == [] && page == 1
      ensures stored.None? ==> bookmarks == []
      ensures stored.Some? ==> Snapshot(bookmarks) == stored.value
      ensures forall i :: 0 <= i < |bookmarks| ==> fresh(bookmarks[i])
      ensures persisted == None
    {
      var loaded: seq<Recipe> := [];
      if stored.Some? {
        loaded := Revive(stored.value);
      }
      this.resultsPerPage := resultsPerPage;
      recipe := null;
      bookmarks := loaded;
      query := "";
      results := [];
      page := 1;
      persisted := None;
    }

    /**
     * loadRecipe(id): on a successful fetch the current recipe becomes the
     * normalised response, flagged bookmarked exactly when some bookmark has
     * the requested id; a failed fetch changes nothing and is passed on.
     */
    method LoadRecipe(id: string, fetched: Result<RawRecipe, AppError>) returns (err: Option<AppError>)
      modifies this`recipe
      ensures fetched.Failure? ==> err == Some(fetched.error) && recipe == old(recipe)
      ensures fetched.Success? ==>
                err == None && recipe != null && fresh(recipe) &&
                recipe.data == CreateRecipeObject(fetched.value) &&
                recipe.bookmarked == Some(exists i :: 0 <= i < |bookmarks| && bookmarks[i].data.id == id)
    {
      match fetched
      case Failure(e) =>
        err := Some(e);
      case Success(raw) =>
        var r := new Recipe(CreateRecipeObject(raw), None);
        recipe := r;
        r.bookmarked := Some(HasBookmark(bookmarks, id));
        err := None;
    }

    /**
     * loadSearchResults(query): the query is stored first, even when the
     * fetch then fails; on success the results become the projected
     * response. The page is not reset.
     */
    method LoadSearchResults(q: string, fetched: Result<seq<RawResult>, AppError>) returns (err: Option<AppError>)
      modifies this`query, this`results
      ensures query == q
      ensures fetched.Success? ==> err == None && results == ProjectResults(fetched.value)
      ensures fetched.Failure? ==> err == Some(fetched.error) && results == old(results)
    {
      query := q;
      match fetched
      case Failure(e) =>
        err := Some(e);
      case Success(raws) =>
        results := ProjectResults(raws);
        err := None;
    }

    /**
     * getSearchResultsPage(page = state.search.page): records the page
     * (None: the argument was omitted) and returns its window of results.
     * Only the page number changes.
     */
    method GetSearchResultsPage(requested: Option<int>) returns (shown: seq<SearchResult>)
      modifies this`page
      ensures page == if requested.Some? then requested.value else old(page)
      ensures shown == PageOf(results, page, resultsPerPage)
      ensures |shown| <= resultsPerPage
      ensures page >= 1 ==>
                forall k :: 0 <= k < |shown| ==> shown[k] == results[(page - 1) * resultsPerPage + k]
      ensures page >= 1 && (page - 1) * resultsPerPage >= |results| ==> shown == []
    {
      page := if requested.Some? then requested.value else page;
      var start := (page - 1) * resultsPerPage;
      var end := page * resultsPerPage;
      shown := Slice(results, start, end);
      assert shown == PageOf(results, page, resultsPerPage);
      if page >= 1 {
        PageWindow(results, page, resultsPerPage);
        if start >= |results| {
          PageBeyondEnd(results, page, resultsPerPage);
        }
      }
    }

    /**
     * addBookmark(r): appends r (duplicates allowed), flags the current
     * recipe when r has its id, and writes the list to storage.
     */
    method AddBookmark(r: Recipe)
      modifies this`bookmarks, this`persisted, recipe
      ensures bookmarks == old(bookmarks) + [r]
      ensures recipe != null && r.data.id == recipe.data.id ==> recipe.bookmarked == Some(true)
      ensures recipe != null && r.data.id != recipe.data.id ==> recipe.bookmarked == old(recipe.bookmarked)
      ensures Persisted()
    {
      bookmarks := bookmarks + [r];
      if recipe != null && r.data.id == recipe.data.id {
        recipe.bookmarked := Some(true);
      }
      ghost var snap := Snapshot(bookmarks);
      persisted := Some(snap);
    }

    /**
     * deleteBookmark(id): splices out the first bookmark with that id or,
     * when there is none, the last bookmark; clears the current recipe's
     * flag when it has that id; writes the list to storage.
     */
    method DeleteBookmark(id: string)
      modifies this`bookmarks, this`persisted, recipe
      ensures bookmarks == AfterDelete(old(bookmarks), id)
      ensures forall i ::
                (0 <= i < |old(bookmarks)| && old(bookmarks)[i].data.id == id &&
                 forall j :: 0 <= j < i ==> old(bookmarks)[j].data.id != id) ==>
                bookmarks == old(bookmarks)[..i] + old(bookmarks)[i + 1..]
      ensures (forall i :: 0 <= i < |old(bookmarks)| ==> old(bookmarks)[i].data.id != id) ==>
                bookmarks == if |old(bookmarks)| == 0 then [] else old(bookmarks)[..|old(bookmarks)| - 1]
      ensures recipe != null && recipe.data.id == id ==> recipe.bookmarked == Some(false)
      ensures recipe != null && recipe.data.id != id ==> recipe.bookmarked == old(recipe.bookmarked)
      ensures Persisted()
    {
      var index := FindIndex(bookmarks, id);
      ghost var before := bookmarks;
      if index == -1 {
        DeleteMissingRemovesLast(before, id);
      }
      forall i | 0 <= i < |before| && before[i].data.id == id && (forall j :: 0 <= j < i ==> before[j].data.id != id)
        ensures AfterDelete(before, id) == before[..i] + before[i + 1..]
      {
        DeleteRemovesFirstMatch(before, id, i);
      }
      bookmarks := SpliceOne(bookmarks, index);
      if recipe != null && recipe.data.id == id {
        recipe.bookmarked := Some(false);
      }
      ghost var snap := Snapshot(bookmarks);
      persisted := Some(snap);
    }

    /**
     * uploadRecipe(form): a malformed ingredient fails before anything is
     * sent; otherwise the payload is sent, and on success the API's echo
     * becomes the current recipe and that same object is bookmarked, so the
     * new last bookmark and its stored copy are flagged bookmarked.
     */
    method UploadRecipe(form: seq<(string, string)>, response: Result<RawRecipe, AppError>)
      returns (sent: Option<Payload>, err: Option<AppError>)
      modifies this`recipe, this`bookmarks, this`persisted
      ensures BuildPayload(form).Failure? ==>
                sent == None && err == Some(BuildPayload(form).error) &&
                recipe == old(recipe) && bookmarks == old(bookmarks) && persisted == old(persisted)
      ensures BuildPayload(form).Success? ==> sent == Some(BuildPayload(form).value)
      ensures BuildPayload(form).Success? && response.Failure? ==>
                err == Some(response.error) &&
                recipe == old(recipe) && bookmarks == old(bookmarks) && persisted == old(persisted)
      ensures BuildPayload(form).Success? && response.Success? ==>
                err == None && recipe != null && fresh(recipe) &&
                recipe.data == CreateRecipeObject(response.value) && recipe.bookmarked == Some(true) &&
                bookmarks == old(bookmarks) + [recipe] &&
                Persisted() && persisted.value[|bookmarks| - 1] == StoredRecipe(recipe.data, Some(true))
    {
      var payload := BuildPayload(form);
      if payload.Failure? {
        sent, err := None, Some(payload.error);
        return;
      }
      sent := Some(payload.value);
      if response.Failure? {
        err := Some(response.error);
        return;
      }
      var r := new Recipe(CreateRecipeObject(response.value), None);
      recipe := r;
      AddBookmark(r);
      err := None;
    }
  }

  /** addBookmark(r) for an id not yet bookmarked, as one step of the round trip below: r is appended and no earlier bookmark's flag moves. */
  method AddFresh(s: State, r: Recipe, ghost bs: seq<Recipe>)
    requires s.bookmarks == bs
    requires forall i :: 0 <= i < |bs| ==> bs[i].data.id != r.data.id
    modifies s`bookmarks, s`persisted, s.recipe
    ensures s.bookmarks == bs + [r]
    ensures s.Persisted()
    ensures s.recipe != null && s.recipe.data.id == r.data.id ==> s.recipe.bookmarked == Some(true)
    ensures s.recipe != null && s.recipe.data.id != r.data.id ==> s.recipe.bookmarked == old(s.recipe.bookmarked)
    ensures forall i :: 0 <= i < |bs| ==> bs[i].bookmarked == old(bs[i].bookmarked)
  {
    s.AddBookmark(r);
  }

  /** deleteBookmark(r.id) right after AddFresh: r is spliced off the end again and no other bookmark's flag moves. */
  method DeleteFresh(s: State, r: Recipe, ghost bs: seq<Recipe>)
    requires s.bookmarks == bs + [r]
    requires forall i :: 0 <= i < |bs| ==> bs[i].data.id != r.data.id
    modifies s`bookmarks, s`persisted, s.recipe
    ensures s.bookmarks == bs
    ensures s.Persisted()
    ensures s.recipe != null && s.recipe.data.id == r.data.id ==> s.recipe.bookmarked == Some(false)
    ensures s.recipe != null && s.recipe.data.id != r.data.id ==> s.recipe.bookmarked == old(s.recipe.bookmarked)
    ensures forall i :: 0 <= i < |bs| ==> bs[i].bookmarked == old(bs[i].bookmarked)
  {
    AddThenDelete(bs, r);
    s.DeleteBookmark(r.data.id);
  }

  /** addBookmark(r) then deleteBookmark(r.id), for an id not yet bookmarked, leaves the list as it was and the current recipe unflagged if it has that id. */
  method AddThenDeleteRestores(s: State, r: Recipe)
    requires forall i :: 0 <= i < |s.bookmarks| ==> s.bookmarks[i].data.id != r.data.id
    modifies s`bookmarks, s`persisted, s.recipe
    ensures s.bookmarks == old(s.bookmarks)
    ensures s.Persisted()
    ensures s.recipe != null && s.recipe.data.id == r.data.id ==> s.recipe.bookmarked == Some(false)
    ensures s.recipe != null && s.recipe.data.id != r.data.id ==> s.recipe.bookmarked == old(s.recipe.bookmarked)
    ensures forall i :: 0 <= i < |s.bookmarks| ==> s.bookmarks[i].bookmarked == old(s.bookmarks[i].bookmarked)
    ensures old(s.Persisted()) ==> s.persisted == old(s.persisted)
  {
    ghost var bs := s.bookmarks;
    ghost var p := s.persisted;
    ghost var wasPersisted := s.Persisted();
    AddFresh(s, r, bs);
    DeleteFresh(s, r, bs);
    if wasPersisted {
      forall i | 0 <= i < |bs| ensures s.persisted.value[i] == p.value[i] { }
      assert s.persisted.value == p.value;
    }
  }
}
