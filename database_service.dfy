/** The SQLite-backed recipe store (backend/src/services/databaseService.ts):
    the recipes table, the recipe_cache table keyed by (ingredient hash, cuisine),
    and the read side of the favorites table. Tables are maps and sequences;
    timestamps are whole seconds supplied by the caller as `now`; the outcome
    of each SQLite call that can fail is a parameter. */
module RecipeStore {
  import opened Wrappers
  import opened Types
  import opened Strings

  /** `created_at > datetime('now', '-1 hour')`. */
  const CacheTtlSeconds: int := 3600

  /** A row of the recipes table after the columns are decoded. */
  datatype Row = Row(
    id: string,
    title: string,
    cuisine: string,
    ingredients: seq<string>,
    instructions: seq<string>,
    cookingTime: int,
    servings: int,
    difficulty: string,
    description: string,
    tags: seq<string>)

  datatype CacheKey = CacheKey(hash: string, cuisine: string)

  datatype CacheEntry = CacheEntry(ids: seq<string>, createdAt: int)

  datatype Favorite = Favorite(recipeId: string, userId: Option<string>)

  /** What the SQLite callback reports for one statement. */
  datatype Outcome = Done | Failed(message: string)

  /** The contents of the three tables. `rowOrder` is the rowid order of the recipes
      table, which is the order in which a full scan returns its rows. */
  datatype Tables = Tables(
    recipes: map<string, Row>,
    rowOrder: seq<string>,
    cache: map<CacheKey, CacheEntry>,
    favorites: seq<Favorite>)
  {
    /** `id` is the primary key of recipes; a cache entry is created with one id and only
        ever gains ids it does not hold. */
    ghost predicate Valid() {
      && NoDuplicates(rowOrder)
      && (forall k :: k in recipes <==> k in rowOrder)
      && (forall k :: k in recipes ==> recipes[k].id == k)
      && (forall key :: key in cache ==> cache[key].ids != [] && NoDuplicates(cache[key].ids))
    }
  }

  function EmptyTables(): (t: Tables)
    ensures t.Valid()
  {
    Tables(map[], [], map[], [])
  }

  // ---------------------------------------------------------------------------
  // Column encoding (saveRecipe's parameters) and decoding (mapRowToRecipe)
  // ---------------------------------------------------------------------------

  /** The recipe as it reads back: description defaults to "" and tags to []. */
  function StoredForm(recipe: Recipe): Recipe {
    recipe.(description := Some(recipe.description.GetOr("")), tags := Some(recipe.tags.GetOr([])))
  }

  function MapRowToRecipe(row: Row): (r: Recipe)
    ensures r.id == row.id && r.title == row.title && r.cuisine == row.cuisine
  {
    Recipe(row.id, row.title, row.cuisine, row.ingredients, row.instructions,
           row.cookingTime, row.servings, row.difficulty, Some(row.description), Some(row.tags))
  }

  /** The values bound to the INSERT OR REPLACE statement. Reading the row back gives
      the recipe with an absent description as "" and absent tags as []. */
  function ToRow(recipe: Recipe): (row: Row)
    ensures row.id == recipe.id
    ensures MapRowToRecipe(row) == StoredForm(recipe)
  {
    var description := match recipe.description case Some(d) => d case None => "";
    var tags := match recipe.tags case Some(t) => t case None => [];
    Row(recipe.id, recipe.title, recipe.cuisine, recipe.ingredients, recipe.instructions,
        recipe.cookingTime, recipe.servings, recipe.difficulty, description, tags)
  }

  // ---------------------------------------------------------------------------
  // hashIngredients
  // ---------------------------------------------------------------------------

  /** `ingredients.sort().join(',').toLowerCase()`: the sort runs on the raw strings,
      before lowercasing. */
  function Hash(ingredients: seq<string>): string {
    Lower(Join(SortStrings(ingredients), ","))
  }

  function KeyOf(request: RecipeRequest): CacheKey {
    CacheKey(Hash(request.ingredients), request.cuisine)
  }

  /** Reordering the ingredients does not change the hash. */
  lemma HashPermutationInvariant(xs: seq<string>, ys: seq<string>)
    requires multiset(xs) == multiset(ys)
    ensures Hash(xs) == Hash(ys)
  {
    SortPermutationInvariant(xs, ys);
  }

  /** The hash is not case-insensitive: the same two names in different cases sort
      differently, because "F" comes before "e" but "f" comes after "e". */
  lemma HashIsCaseSensitiveInOrder()
    ensures Hash(["Flour", "egg"]) == "flour,egg"
    ensures Hash(["egg", "flour"]) == "egg,flour"
    ensures Hash(["Flour", "egg"]) != Hash(["egg", "flour"])
  {
    assert Less("Flour", "egg");
    assert !Less("flour", "egg") by { assert Less("egg", "flour"); LessAsymmetric("egg", "flour"); }
    assert SortStrings(["egg"]) == ["egg"];
    assert SortStrings(["flour"]) == ["flour"];
    assert SortStrings(["Flour", "egg"]) == ["Flour", "egg"];
    assert SortStrings(["egg", "flour"]) == Insert("egg", ["flour"]) == ["egg", "flour"];
    assert Join(["Flour", "egg"], ",") == "Flour,egg";
    assert Join(["egg", "flour"], ",") == "egg,flour";
    assert Lower("Flour,egg")[0] == 'f';
    assert "flour,egg" != "egg,flour" by { assert "flour,egg"[0] != "egg,flour"[0]; }
  }

  // ---------------------------------------------------------------------------
  // Table updates
  // ---------------------------------------------------------------------------

  /** INSERT OR REPLACE: the old row with this id, if any, is deleted and the new row
      is inserted with a fresh rowid, so it moves to the end of `rowOrder`. */
  function Upsert(t: Tables, recipe: Recipe): (u: Tables)
    ensures u.cache == t.cache && u.favorites == t.favorites
    ensures u.recipes.Keys == t.recipes.Keys + {recipe.id}
  {
    var rest := RemoveAll(t.rowOrder, recipe.id);
    Tables(t.recipes[recipe.id := ToRow(recipe)], rest + [recipe.id], t.cache, t.favorites)
  }

  /** Upserting keeps the table invariants. */
  lemma UpsertValid(t: Tables, recipe: Recipe)
    requires t.Valid()
    ensures Upsert(t, recipe).Valid()
  {
    var rest := RemoveAll(t.rowOrder, recipe.id);
    RemoveAllNoDuplicates(t.rowOrder, recipe.id);
    NoDuplicatesSnoc(rest, recipe.id);
  }

  /** cacheRecipe once its lookup has succeeded: create the entry with [id], or append a
      new id and reset created_at to now; an id already listed changes nothing. */
  function CacheAppend(cache: map<CacheKey, CacheEntry>, key: CacheKey, id: string, now: int)
    : (c: map<CacheKey, CacheEntry>)
    ensures c.Keys == cache.Keys + {key}
    ensures forall k :: k in cache && k != key ==> c[k] == cache[k]
    ensures id in c[key].ids
    ensures key in cache ==> forall x :: x in cache[key].ids ==> x in c[key].ids
  {
    if key in cache then
      if id in cache[key].ids then cache
      else cache[key := CacheEntry(cache[key].ids + [id], now)]
    else cache[key := CacheEntry([id], now)]
  }

  /** The cache entry saveRecipe updates: the one for the request, if a request is given. */
  function CacheKeyOf(request: Option<RecipeRequest>): Option<CacheKey> {
    if request.Some? then Some(KeyOf(request.value)) else None
  }

  /** The whole effect of saveRecipe on the tables and its result, for a given cache key. */
  function SavedAt(t: Tables, recipe: Recipe, key: Option<CacheKey>, now: int,
                   insert: Outcome, cacheWrite: Outcome): (Tables, Result<Recipe>)
  {
    if insert.Failed? then (t, Failure(insert.message))
    else
      var u := Upsert(t, recipe);
      if key.Some? && cacheWrite.Done? then
        (u.(cache := CacheAppend(u.cache, key.value, recipe.id, now)), Success(recipe))
      else (u, Success(recipe))
  }

  /** The whole effect of saveRecipe on the tables and its result. */
  function Saved(t: Tables, recipe: Recipe, request: Option<RecipeRequest>, now: int,
                 insert: Outcome, cacheWrite: Outcome): (Tables, Result<Recipe>)
  {
    SavedAt(t, recipe, CacheKeyOf(request), now, insert, cacheWrite)
  }

  lemma CacheAppendValid(t: Tables, key: CacheKey, id: string, now: int)
    requires t.Valid()
    ensures t.(cache := CacheAppend(t.cache, key, id, now)).Valid()
  {
    if key in t.cache && id !in t.cache[key].ids {
      NoDuplicatesSnoc(t.cache[key].ids, id);
    }
  }

  /** Saving keeps the table invariants. */
  lemma SavedAtValid(t: Tables, recipe: Recipe, key: Option<CacheKey>, now: int,
                     insert: Outcome, cacheWrite: Outcome)
    requires t.Valid()
    ensures SavedAt(t, recipe, key, now, insert, cacheWrite).0.Valid()
  {
    if insert.Done? {
      UpsertValid(t, recipe);
      if key.Some? && cacheWrite.Done? {
        CacheAppendValid(Upsert(t, recipe), key.value, recipe.id, now);
      }
    }
  }

  lemma SavedValid(t: Tables, recipe: Recipe, request: Option<RecipeRequest>, now: int,
                   insert: Outcome, cacheWrite: Outcome)
    requires t.Valid()
    ensures Saved(t, recipe, request, now, insert, cacheWrite).0.Valid()
  {
    SavedAtValid(t, recipe, CacheKeyOf(request), now, insert, cacheWrite);
  }

  // ---------------------------------------------------------------------------
  // Queries
  // ---------------------------------------------------------------------------

  /** The row `SELECT * FROM recipes WHERE id = ?` finds, mapped to a recipe. */
  function RecipeById(t: Tables, id: string): (r: Option<Recipe>)
    requires t.Valid()
    ensures r.Some? <==> id in t.recipes
    ensures r.Some? ==> r.value.id == id && r.value == MapRowToRecipe(t.recipes[id])
  {
    if id in t.recipes then Some(MapRowToRecipe(t.recipes[id])) else None
  }

  /** getRecipeById: a failed statement rejects with its error; otherwise the promise
      resolves with the recipe stored under the id, or null when there is none. */
  function GetRecipeById(t: Tables, id: string, read: Outcome): (r: Result<Option<Recipe>>)
    requires t.Valid()
    ensures r.Failure? <==> read.Failed?
    ensures read.Failed? ==> r.error == read.message
    ensures r.Success? ==> (r.value.Some? <==> id in t.recipes)
    ensures r.Success? && r.value.Some? ==> r.value.value.id == id && r.value.value == MapRowToRecipe(t.recipes[id])
  {
    if read.Failed? then Failure(read.message) else Success(RecipeById(t, id))
  }

  /** `x LIKE '%q%'`: ASCII-case-insensitive substring match. */
  predicate Like(text: string, query: string) {
    Contains(Lower(text), Lower(query))
  }

  /** The WHERE clause of searchRecipes. `AND` binds tighter than `OR`, so with a cuisine
      the clause is `title LIKE q OR (description LIKE q AND cuisine = c)`. An empty
      cuisine is falsy and adds no condition. */
  predicate SearchMatches(row: Row, query: string, cuisine: Option<string>) {
    Like(row.title, query) || (Like(row.description, query) && (!TruthyText(cuisine) || row.cuisine == cuisine.value))
  }

  function SearchRows(t: Tables, order: seq<string>, query: string, cuisine: Option<string>): (r: seq<Recipe>)
    requires t.Valid()
    requires forall k :: k in order ==> k in t.recipes
    ensures forall x :: x in r ==> x.id in order && SearchMatches(t.recipes[x.id], query, cuisine) && x == MapRowToRecipe(t.recipes[x.id])
    ensures forall k :: k in order && SearchMatches(t.recipes[k], query, cuisine) ==> MapRowToRecipe(t.recipes[k]) in r
  {
    if order == [] then []
    else
      var rest := SearchRows(t, order[1..], query, cuisine);
      if SearchMatches(t.recipes[order[0]], query, cuisine) then [MapRowToRecipe(t.recipes[order[0]])] + rest else rest
  }

  /** The rows searchRecipes' statement selects, in table order. */
  function MatchingRecipes(t: Tables, query: string, cuisine: Option<string>): (r: seq<Recipe>)
    requires t.Valid()
    ensures forall x :: x in r ==> x.id in t.recipes && SearchMatches(t.recipes[x.id], query, cuisine) && x == MapRowToRecipe(t.recipes[x.id])
    ensures forall k :: k in t.recipes && SearchMatches(t.recipes[k], query, cuisine) ==> MapRowToRecipe(t.recipes[k]) in r
  {
    SearchRows(t, t.rowOrder, query, cuisine)
  }

  /** searchRecipes: a failed statement rejects with its error; otherwise the promise
      resolves with the matching rows. */
  function SearchRecipes(t: Tables, query: string, cuisine: Option<string>, read: Outcome): (r: Result<seq<Recipe>>)
    requires t.Valid()
    ensures r.Failure? <==> read.Failed?
    ensures read.Failed? ==> r.error == read.message
    ensures r.Success? ==> forall x :: x in r.value ==> x.id in t.recipes && SearchMatches(t.recipes[x.id], query, cuisine) && x == MapRowToRecipe(t.recipes[x.id])
    ensures r.Success? ==> forall k :: k in t.recipes && SearchMatches(t.recipes[k], query, cuisine) ==> MapRowToRecipe(t.recipes[k]) in r.value
  {
    if read.Failed? then Failure(read.message) else Success(MatchingRecipes(t, query, cuisine))
  }

  /** A recipe whose title matches is found whatever its cuisine: the cuisine filter only
      applies to description matches. */
  lemma SearchTitleIgnoresCuisine(t: Tables, id: string, query: string, cuisine: string)
    requires t.Valid() && id in t.recipes
    requires Like(t.recipes[id].title, query)
    ensures MapRowToRecipe(t.recipes[id]) in MatchingRecipes(t, query, Some(cuisine))
  {
  }

  /** A cache entry is usable while it is younger than one hour. */
  predicate Fresh(t: Tables, key: CacheKey, now: int) {
    key in t.cache && t.cache[key].createdAt > now - CacheTtlSeconds
  }

  function RecipesWithIds(t: Tables, ids: seq<string>): (r: seq<Recipe>)
    requires t.Valid()
    ensures |r| <= |ids|
    ensures forall x :: x in r ==> x.id in ids && x.id in t.recipes && x == MapRowToRecipe(t.recipes[x.id])
    ensures forall k :: k in ids && k in t.recipes ==> MapRowToRecipe(t.recipes[k]) in r
  {
    if ids == [] then []
    else
      var rest := RecipesWithIds(t, ids[1..]);
      if ids[0] in t.recipes then [MapRowToRecipe(t.recipes[ids[0]])] + rest else rest
  }

  /** findCachedRecipes: nothing unless the entry for (hash, cuisine) is fresh; otherwise
      the stored recipes listed in it, unknown ids dropped. */
  function FindCachedRecipes(t: Tables, request: RecipeRequest, now: int): (r: seq<Recipe>)
    requires t.Valid()
    ensures !Fresh(t, KeyOf(request), now) ==> r == []
    ensures Fresh(t, KeyOf(request), now) ==>
      && (forall x :: x in r ==> x.id in t.cache[KeyOf(request)].ids && x.id in t.recipes && x == MapRowToRecipe(t.recipes[x.id]))
      && (forall k :: k in t.cache[KeyOf(request)].ids && k in t.recipes ==> MapRowToRecipe(t.recipes[k]) in r)
  {
    var key := KeyOf(request);
    if Fresh(t, key, now) then RecipesWithIds(t, t.cache[key].ids) else []
  }

  /** The join of favorites with recipes, filtered by user when a non-empty one is given
      (a NULL user_id never equals it). */
  predicate FavoriteSelected(t: Tables, f: Favorite, userId: Option<string>) {
    f.recipeId in t.recipes && (!TruthyText(userId) || f.userId == userId)
  }

  function FavoritesFrom(t: Tables, favs: seq<Favorite>, userId: Option<string>): (r: seq<Recipe>)
    requires t.Valid()
    ensures |r| <= |favs|
    ensures forall x :: x in r ==> exists f :: f in favs && FavoriteSelected(t, f, userId) && x == MapRowToRecipe(t.recipes[f.recipeId])
    ensures forall f :: f in favs && FavoriteSelected(t, f, userId) ==> MapRowToRecipe(t.recipes[f.recipeId]) in r
  {
    if favs == [] then []
    else
      var rest := FavoritesFrom(t, favs[1..], userId);
      if FavoriteSelected(t, favs[0], userId) then [MapRowToRecipe(t.recipes[favs[0].recipeId])] + rest else rest
  }

  /** The rows getFavoriteRecipes' join selects. */
  function FavoriteRecipes(t: Tables, userId: Option<string>): (r: seq<Recipe>)
    requires t.Valid()
    ensures forall x :: x in r ==> exists f :: f in t.favorites && FavoriteSelected(t, f, userId) && x == MapRowToRecipe(t.recipes[f.recipeId])
    ensures forall f :: f in t.favorites && FavoriteSelected(t, f, userId) ==> MapRowToRecipe(t.recipes[f.recipeId]) in r
  {
    FavoritesFrom(t, t.favorites, userId)
  }

  /** getFavoriteRecipes: a failed statement rejects with its error; otherwise the
      promise resolves with the joined rows. */
  function GetFavoriteRecipes(t: Tables, userId: Option<string>, read: Outcome): (r: Result<seq<Recipe>>)
    requires t.Valid()
    ensures r.Failure? <==> read.Failed?
    ensures read.Failed? ==> r.error == read.message
    ensures r.Success? ==> forall x :: x in r.value ==> exists f :: f in t.favorites && FavoriteSelected(t, f, userId) && x == MapRowToRecipe(t.recipes[f.recipeId])
    ensures r.Success? ==> forall f :: f in t.favorites && FavoriteSelected(t, f, userId) ==> MapRowToRecipe(t.recipes[f.recipeId]) in r.value
  {
    if read.Failed? then Failure(read.message) else Success(FavoriteRecipes(t, userId))
  }

  // ---------------------------------------------------------------------------
  // Properties of saveRecipe and the cache
  // ---------------------------------------------------------------------------

  /** saveRecipe is an upsert by id: the recipe reads back in its stored form and no
      other id's recipe changes. */
  lemma SaveIsUpsert(t: Tables, recipe: Recipe, request: Option<RecipeRequest>, now: int, cacheWrite: Outcome)
    requires t.Valid()
    ensures var (u, r) := Saved(t, recipe, request, now, Done, cacheWrite);
      && r == Success(recipe)
      && u.Valid()
      && RecipeById(u, recipe.id) == Some(StoredForm(recipe))
      && (forall id :: id != recipe.id ==> RecipeById(u, id) == RecipeById(t, id))
      && u.favorites == t.favorites
  {
    SavedValid(t, recipe, request, now, Done, cacheWrite);
  }

  /** Saving two recipes with the same id keeps one row, holding the later one. */
  lemma SaveTwiceKeepsLatest(t: Tables, first: Recipe, second: Recipe, now: int)
    requires t.Valid()
    requires first.id == second.id
    ensures var u := Saved(Saved(t, first, None, now, Done, Done).0, second, None, now, Done, Done).0;
      && u.Valid()
      && u.recipes.Keys == t.recipes.Keys + {first.id}
      && RecipeById(u, first.id) == Some(StoredForm(second))
  {
    SavedValid(t, first, None, now, Done, Done);
    SavedValid(Saved(t, first, None, now, Done, Done).0, second, None, now, Done, Done);
  }

  /** Without a request the cache is not touched; a failed cache update does not fail the save. */
  lemma SaveCacheBestEffort(t: Tables, recipe: Recipe, request: Option<RecipeRequest>, now: int, cacheWrite: Outcome)
    requires t.Valid()
    requires request.None? || cacheWrite.Failed?
    ensures var (u, r) := Saved(t, recipe, request, now, Done, cacheWrite);
      r == Success(recipe) && u.cache == t.cache && u.recipes == t.recipes[recipe.id := ToRow(recipe)]
  {
  }

  /** A failed INSERT rejects with its error and changes nothing. */
  lemma SaveFailureChangesNothing(t: Tables, recipe: Recipe, request: Option<RecipeRequest>, now: int, message: string, cacheWrite: Outcome)
    ensures Saved(t, recipe, request, now, Failed(message), cacheWrite) == (t, Failure(message))
  {
  }

  /** The three cases of the cache append. */
  lemma CacheAppendCases(cache: map<CacheKey, CacheEntry>, key: CacheKey, id: string, now: int)
    ensures key !in cache ==> CacheAppend(cache, key, id, now)[key] == CacheEntry([id], now)
    ensures key in cache && id !in cache[key].ids ==>
      CacheAppend(cache, key, id, now)[key] == CacheEntry(cache[key].ids + [id], now)
    ensures key in cache && id in cache[key].ids ==> CacheAppend(cache, key, id, now) == cache
  {
  }

  lemma RecipesWithIdsAppend(t: Tables, ids: seq<string>, id: string)
    requires t.Valid() && id in t.recipes
    ensures MapRowToRecipe(t.recipes[id]) in RecipesWithIds(t, ids + [id])
  {
    assert id in ids + [id];
  }

  /** After a save with a request whose id is new to its cache entry, the recipe is a
      cache hit for that request for the next hour. */
  lemma SaveThenFindCached(t: Tables, recipe: Recipe, request: RecipeRequest, now: int, later: int)
    requires t.Valid()
    requires KeyOf(request) !in t.cache || recipe.id !in t.cache[KeyOf(request)].ids
    requires later - CacheTtlSeconds < now
    ensures var u := Saved(t, recipe, Some(request), now, Done, Done).0;
      u.Valid() && StoredForm(recipe) in FindCachedRecipes(u, request, later)
  {
    var u := Saved(t, recipe, Some(request), now, Done, Done).0;
    SavedValid(t, recipe, Some(request), now, Done, Done);
    assert Fresh(u, KeyOf(request), later);
    assert recipe.id in u.cache[KeyOf(request)].ids && recipe.id in u.recipes;
  }

  /** Re-saving a recipe whose id is already listed does not refresh the entry: an expired
      entry stays expired and the lookup still misses. */
  lemma ResaveDoesNotRefresh(t: Tables, recipe: Recipe, request: RecipeRequest, now: int)
    requires t.Valid()
    requires KeyOf(request) in t.cache && recipe.id in t.cache[KeyOf(request)].ids
    requires !Fresh(t, KeyOf(request), now)
    ensures var u := Saved(t, recipe, Some(request), now, Done, Done).0;
      u.Valid() && FindCachedRecipes(u, request, now) == []
  {
    SavedValid(t, recipe, Some(request), now, Done, Done);
  }

  /** Appending a new id to an expired entry makes the ids it already held hits again. */
  lemma AppendRevivesExpiredEntry(t: Tables, recipe: Recipe, request: RecipeRequest, now: int, old_id: string)
    requires t.Valid()
    requires KeyOf(request) in t.cache && recipe.id !in t.cache[KeyOf(request)].ids
    requires !Fresh(t, KeyOf(request), now)
    requires old_id in t.cache[KeyOf(request)].ids && old_id in t.recipes && old_id != recipe.id
    ensures FindCachedRecipes(t, request, now) == []
    ensures var u := Saved(t, recipe, Some(request), now, Done, Done).0;
      u.Valid() && MapRowToRecipe(t.recipes[old_id]) in FindCachedRecipes(u, request, now)
  {
    var u := Saved(t, recipe, Some(request), now, Done, Done).0;
    SavedValid(t, recipe, Some(request), now, Done, Done);
    assert old_id in u.cache[KeyOf(request)].ids;
    assert u.recipes[old_id] == t.recipes[old_id];
  }

  /** Requests listing the same ingredients in another order share one cache entry. */
  lemma FindCachedOrderInsensitive(t: Tables, a: RecipeRequest, b: RecipeRequest, now: int)
    requires t.Valid()
    requires multiset(a.ingredients) == multiset(b.ingredients) && a.cuisine == b.cuisine
    ensures FindCachedRecipes(t, a, now) == FindCachedRecipes(t, b, now)
  {
    HashPermutationInvariant(a.ingredients, b.ingredients);
  }

  /** The database client. The tables are its state; each method says how they change. */
  class DatabaseService {
    var recipes: map<string, Row>
    var rowOrder: seq<string>
    var cache: map<CacheKey, CacheEntry>
    var favorites: seq<Favorite>

    function State(): Tables
      reads this
    {
      Tables(recipes, rowOrder, cache, favorites)
    }

    ghost predicate Valid()
      reads this
    {
      State().Valid()
    }

    /** Opens the database file; CREATE TABLE IF NOT EXISTS keeps whatever it holds. */
    constructor (existing: Tables)
      requires existing.Valid()
      ensures Valid() && State() == existing
    {
      recipes, rowOrder, cache, favorites := existing.recipes, existing.rowOrder, existing.cache, existing.favorites;
    }

    /** INSERT OR REPLACE the recipe; when the insert succeeds and a request is given,
        update the cache as a best-effort side effect. Resolves with the recipe as given. */
    method SaveRecipe(recipe: Recipe, request: Option<RecipeRequest>, now: int, insert: Outcome, cacheWrite: Outcome)
      returns (r: Result<Recipe>)
      requires Valid()
      modifies this
      ensures Valid()
      ensures (State(), r) == Saved(old(State()), recipe, request, now, insert, cacheWrite)
    {
      SavedValid(State(), recipe, request, now, insert, cacheWrite);
      if insert.Failed? {
        r := Failure(insert.message);
        return;
      }
      recipes := recipes[recipe.id := ToRow(recipe)];
      rowOrder := RemoveAll(rowOrder, recipe.id) + [recipe.id];
      if request.Some? {
        CacheRecipe(recipe.id, request.value, now, cacheWrite);
      }
      r := Success(recipe);
    }

    /** cacheRecipe. Its errors are only logged, so a failed lookup or write leaves the
        cache as it was. */
    method CacheRecipe(recipeId: string, request: RecipeRequest, now: int, io: Outcome)
      modifies this
      ensures recipes == old(recipes) && rowOrder == old(rowOrder) && favorites == old(favorites)
      ensures cache == if io.Done? then CacheAppend(old(cache), KeyOf(request), recipeId, now) else old(cache)
    {
      if io.Failed? {
        return;
      }
      var key := KeyOf(request);
      if key in cache {
        var existingIds := cache[key].ids;
        if recipeId !in existingIds {
          existingIds := existingIds + [recipeId];
          cache := cache[key := CacheEntry(existingIds, now)];
        }
      } else {
        cache := cache[key := CacheEntry([recipeId], now)];
      }
    }

    /** hashIngredients: sorts the caller's array in place, then joins and lowercases. */
    method HashIngredients(ingredients: array<string>) returns (h: string)
      modifies ingredients
      ensures ingredients[..] == SortStrings(old(ingredients[..]))
      ensures h == Hash(old(ingredients[..]))
    {
      var sorted := SortStrings(ingredients[..]);
      SortPermutes(ingredients[..]);
      forall i | 0 <= i < ingredients.Length {
        ingredients[i] := sorted[i];
      }
      assert ingredients[..] == sorted;
      h := Lower(Join(ingredients[..], ","));
    }
  }
}
