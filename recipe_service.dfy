/** The recipe service (backend/src/services/recipeService.ts): answer a generation
    request from the cache when it can, otherwise generate, save each recipe, and answer
    with what was generated. The remaining operations pass straight through to the store. */
module RecipeOrchestration {
  import opened Wrappers
  import opened Types
  import opened Strings
  import opened RecipeStore
  import Ai

  /** One pass of the save loop: saveRecipe(recipe, request), whose cache entry is `key`.
      The second component is the error it rethrows, if any. */
  function SaveStep(t: Tables, recipe: Recipe, key: CacheKey, now: int, insert: Outcome, cacheWrite: Outcome)
    : (Tables, Option<string>)
  {
    if insert.Failed? then (t, Some(insert.message))
    else (SavedAt(t, recipe, Some(key), now, insert, cacheWrite).0, None)
  }

  /** saveRecipe with a request is one step of the loop on that request's cache key. */
  lemma SavedIsStep(t: Tables, recipe: Recipe, request: RecipeRequest, now: int, insert: Outcome, cacheWrite: Outcome)
    ensures var (u, r) := Saved(t, recipe, Some(request), now, insert, cacheWrite);
      SaveStep(t, recipe, KeyOf(request), now, insert, cacheWrite) == (u, if r.Failure? then Some(r.error) else None)
  {
  }

  /** Saving the first `k` generated recipes in order, stopping at the first failed save. */
  function SavePrefix(t: Tables, recipes: seq<Recipe>, key: CacheKey, now: int,
                      inserts: nat -> Outcome, cacheWrites: nat -> Outcome, k: nat): (Tables, Option<string>)
    requires k <= |recipes|
  {
    if k == 0 then (t, None)
    else
      var before := SavePrefix(t, recipes, key, now, inserts, cacheWrites, k - 1);
      if before.1.Some? then before
      else SaveStep(before.0, recipes[k - 1], key, now, inserts(k - 1), cacheWrites(k - 1))
  }

  function SaveAll(t: Tables, recipes: seq<Recipe>, key: CacheKey, now: int,
                   inserts: nat -> Outcome, cacheWrites: nat -> Outcome): (Tables, Option<string>)
  {
    SavePrefix(t, recipes, key, now, inserts, cacheWrites, |recipes|)
  }

  /** findCachedRecipes sorts the caller's ingredient array in place before hashing, so
      every later step of the same call sees the ingredients in sorted order. */
  function SortedRequest(request: RecipeRequest): RecipeRequest {
    request.(ingredients := SortStrings(request.ingredients))
  }

  /** The whole effect of generateRecipes: new tables, the answer, and whether the model
      was asked. `lookup` is the outcome of the cache queries, `inserts(i)` and
      `cacheWrites(i)` those of saving the i-th generated recipe. */
  function Generated(t: Tables, request: RecipeRequest, now: int,
                     llm: string -> Result<string>, parse: string -> Option<Ai.Json>, stamp: nat,
                     lookup: Outcome, inserts: nat -> Outcome, cacheWrites: nat -> Outcome)
    : (Tables, Result<RecipeResponse>, bool)
    requires t.Valid()
  {
    if lookup.Failed? then (t, Failure(lookup.message), false)
    else
      var cached := FindCachedRecipes(t, request, now);
      if |cached| > 0 then (t, Success(RecipeResponse(cached, |cached|)), false)
      else
        var sorted := SortedRequest(request);
        match Ai.GenerateRecipes(sorted, llm, parse, stamp)
        case Failure(e) => (t, Failure(e), true)
        case Success(recipes) =>
          var (u, err) := SaveAll(t, recipes, KeyOf(sorted), now, inserts, cacheWrites);
          (u, if err.Some? then Failure(err.value) else Success(RecipeResponse(recipes, |recipes|)), true)
  }

  // ---------------------------------------------------------------------------
  // Properties of the save loop
  // ---------------------------------------------------------------------------

  /** A successful step stores the recipe's row under its id. */
  lemma SaveStepRows(t: Tables, recipe: Recipe, key: CacheKey, now: int, cacheWrite: Outcome)
    ensures SaveStep(t, recipe, key, now, Done, cacheWrite).0.recipes == t.recipes[recipe.id := ToRow(recipe)]
  {
  }

  /** A successful step with a successful cache write appends the id to the entry. */
  lemma SaveStepCache(t: Tables, recipe: Recipe, key: CacheKey, now: int)
    ensures SaveStep(t, recipe, key, now, Done, Done).0.cache == CacheAppend(t.cache, key, recipe.id, now)
  {
  }

  /** Saving keeps the table invariants. */
  lemma {:induction false} SavePrefixValid(t: Tables, recipes: seq<Recipe>, key: CacheKey, now: int,
                                           inserts: nat -> Outcome, cacheWrites: nat -> Outcome, k: nat)
    requires t.Valid() && k <= |recipes|
    ensures SavePrefix(t, recipes, key, now, inserts, cacheWrites, k).0.Valid()
    decreases k
  {
    if k > 0 {
      SavePrefixValid(t, recipes, key, now, inserts, cacheWrites, k - 1);
      var before := SavePrefix(t, recipes, key, now, inserts, cacheWrites, k - 1);
      if before.1.None? {
        SavedAtValid(before.0, recipes[k - 1], Some(key), now, inserts(k - 1), cacheWrites(k - 1));
      }
    }
  }

  /** Once a save has failed, the later recipes are not attempted. */
  lemma {:induction false} FailureSticks(t: Tables, recipes: seq<Recipe>, key: CacheKey, now: int,
                                         inserts: nat -> Outcome, cacheWrites: nat -> Outcome, k: nat, j: nat)
    requires k <= j <= |recipes|
    requires SavePrefix(t, recipes, key, now, inserts, cacheWrites, k).1.Some?
    ensures SavePrefix(t, recipes, key, now, inserts, cacheWrites, j) == SavePrefix(t, recipes, key, now, inserts, cacheWrites, k)
    decreases j
  {
    if j > k {
      FailureSticks(t, recipes, key, now, inserts, cacheWrites, k, j - 1);
    }
  }

  /** A failed insert of the k-th recipe stops the loop with that error; the recipes saved
      before it stay saved. */
  lemma StopsAtFirstFailure(t: Tables, recipes: seq<Recipe>, key: CacheKey, now: int,
                            inserts: nat -> Outcome, cacheWrites: nat -> Outcome, k: nat)
    requires k < |recipes|
    requires SavePrefix(t, recipes, key, now, inserts, cacheWrites, k).1.None?
    requires inserts(k).Failed?
    ensures SaveAll(t, recipes, key, now, inserts, cacheWrites) ==
      (SavePrefix(t, recipes, key, now, inserts, cacheWrites, k).0, Some(inserts(k).message))
  {
    FailureSticks(t, recipes, key, now, inserts, cacheWrites, k + 1, |recipes|);
  }

  predicate AllDone(f: nat -> Outcome, k: nat) {
    forall i: nat :: i < k ==> f(i).Done?
  }

  predicate DistinctIds(recipes: seq<Recipe>) {
    forall i, j :: 0 <= i < j < |recipes| ==> recipes[i].id != recipes[j].id
  }

  /** With every insert succeeding, no save fails. */
  lemma {:induction false} SavePrefixNoError(t: Tables, recipes: seq<Recipe>, key: CacheKey, now: int,
                                             inserts: nat -> Outcome, cacheWrites: nat -> Outcome, k: nat)
    requires k <= |recipes|
    requires AllDone(inserts, k)
    ensures SavePrefix(t, recipes, key, now, inserts, cacheWrites, k).1.None?
    decreases k
  {
    if k > 0 {
      SavePrefixNoError(t, recipes, key, now, inserts, cacheWrites, k - 1);
    }
  }

  /** Without an earlier error, saving k recipes is saving k-1 and then one more step. */
  lemma SavePrefixUnfold(t: Tables, recipes: seq<Recipe>, key: CacheKey, now: int,
                         inserts: nat -> Outcome, cacheWrites: nat -> Outcome, k: nat)
    requires 0 < k <= |recipes|
    requires SavePrefix(t, recipes, key, now, inserts, cacheWrites, k - 1).1.None?
    ensures SavePrefix(t, recipes, key, now, inserts, cacheWrites, k) ==
      SaveStep(SavePrefix(t, recipes, key, now, inserts, cacheWrites, k - 1).0, recipes[k - 1], key, now, inserts(k - 1), cacheWrites(k - 1))
  {
  }

  /** With every insert succeeding, each of the first k recipes is stored as given (ids
      being distinct, no later one overwrites an earlier one). */
  lemma {:induction false} SavePrefixStores(t: Tables, recipes: seq<Recipe>, key: CacheKey, now: int,
                                            inserts: nat -> Outcome, cacheWrites: nat -> Outcome, k: nat, i: nat)
    requires i < k <= |recipes|
    requires DistinctIds(recipes)
    requires AllDone(inserts, k)
    ensures var rows := SavePrefix(t, recipes, key, now, inserts, cacheWrites, k).0.recipes;
      recipes[i].id in rows && rows[recipes[i].id] == ToRow(recipes[i])
    decreases k
  {
    SavePrefixNoError(t, recipes, key, now, inserts, cacheWrites, k - 1);
    assert inserts(k - 1).Done?;
    PrefixRowsStep(t, recipes, key, now, inserts, cacheWrites, k);
    if i < k - 1 {
      SavePrefixStores(t, recipes, key, now, inserts, cacheWrites, k - 1, i);
      assert recipes[i].id != recipes[k - 1].id;
    }
  }

  /** A successful k-th save writes recipe k-1's row over the rows written before it. */
  lemma PrefixRowsStep(t: Tables, recipes: seq<Recipe>, key: CacheKey, now: int,
                       inserts: nat -> Outcome, cacheWrites: nat -> Outcome, k: nat)
    requires 0 < k <= |recipes|
    requires SavePrefix(t, recipes, key, now, inserts, cacheWrites, k - 1).1.None? && inserts(k - 1).Done?
    ensures SavePrefix(t, recipes, key, now, inserts, cacheWrites, k).0.recipes ==
      SavePrefix(t, recipes, key, now, inserts, cacheWrites, k - 1).0.recipes[recipes[k - 1].id := ToRow(recipes[k - 1])]
  {
    SavePrefixUnfold(t, recipes, key, now, inserts, cacheWrites, k);
    SaveStepRows(SavePrefix(t, recipes, key, now, inserts, cacheWrites, k - 1).0, recipes[k - 1], key, now, cacheWrites(k - 1));
  }

  /** The cache entry for `key` lists the ids of the first k recipes. */
  predicate ListedUpTo(cache: map<CacheKey, CacheEntry>, key: CacheKey, recipes: seq<Recipe>, k: nat)
    requires k <= |recipes|
  {
    forall i :: 0 <= i < k ==> key in cache && recipes[i].id in cache[key].ids
  }

  /** Appending the id of recipe k-1 keeps the ids of recipes 0..k-2 listed. */
  lemma ListedStep(before: map<CacheKey, CacheEntry>, after: map<CacheKey, CacheEntry>, key: CacheKey,
                   recipes: seq<Recipe>, k: nat, now: int)
    requires 0 < k <= |recipes|
    requires after == CacheAppend(before, key, recipes[k - 1].id, now)
    requires ListedUpTo(before, key, recipes, k - 1)
    ensures ListedUpTo(after, key, recipes, k)
  {
    forall i | 0 <= i < k
      ensures key in after && recipes[i].id in after[key].ids
    {
      if i < k - 1 {
        assert recipes[i].id in before[key].ids;
      }
    }
  }

  /** With every insert and cache write succeeding, the cache entry lists each of the
      first k recipes. */
  lemma {:induction false} SavePrefixCaches(t: Tables, recipes: seq<Recipe>, key: CacheKey, now: int,
                                            inserts: nat -> Outcome, cacheWrites: nat -> Outcome, k: nat)
    requires k <= |recipes|
    requires AllDone(inserts, k) && AllDone(cacheWrites, k)
    ensures ListedUpTo(SavePrefix(t, recipes, key, now, inserts, cacheWrites, k).0.cache, key, recipes, k)
    decreases k
  {
    if k > 0 {
      SavePrefixCaches(t, recipes, key, now, inserts, cacheWrites, k - 1);
      SavePrefixNoError(t, recipes, key, now, inserts, cacheWrites, k - 1);
      var before := SavePrefix(t, recipes, key, now, inserts, cacheWrites, k - 1).0;
      var after := SavePrefix(t, recipes, key, now, inserts, cacheWrites, k).0;
      SavePrefixUnfold(t, recipes, key, now, inserts, cacheWrites, k);
      SaveStepCache(before, recipes[k - 1], key, now);
      ListedStep(before.cache, after.cache, key, recipes, k, now);
    }
  }

  /** The first recipe whose id is new to the cache entry resets its timestamp to now, and
      every later save leaves the timestamp at now. */
  lemma {:induction false} SavePrefixFreshens(t: Tables, recipes: seq<Recipe>, key: CacheKey, now: int,
                                              inserts: nat -> Outcome, cacheWrites: nat -> Outcome, k: nat)
    requires 0 < k <= |recipes|
    requires AllDone(inserts, k) && AllDone(cacheWrites, k)
    requires key !in t.cache || recipes[0].id !in t.cache[key].ids
    ensures var u := SavePrefix(t, recipes, key, now, inserts, cacheWrites, k).0;
      key in u.cache && u.cache[key].createdAt == now
    decreases k
  {
    SavePrefixNoError(t, recipes, key, now, inserts, cacheWrites, k - 1);
    var before := SavePrefix(t, recipes, key, now, inserts, cacheWrites, k - 1).0;
    SaveStepCache(before, recipes[k - 1], key, now);
    if k > 1 {
      SavePrefixFreshens(t, recipes, key, now, inserts, cacheWrites, k - 1);
    }
  }

  // ---------------------------------------------------------------------------
  // Properties of generateRecipes
  // ---------------------------------------------------------------------------

  /** A failed cache lookup is rethrown before the model is asked, and nothing changes. */
  lemma LookupFailureRethrown(t: Tables, request: RecipeRequest, now: int,
                              llm: string -> Result<string>, parse: string -> Option<Ai.Json>, stamp: nat,
                              message: string, inserts: nat -> Outcome, cacheWrites: nat -> Outcome)
    requires t.Valid()
    ensures Generated(t, request, now, llm, parse, stamp, Failed(message), inserts, cacheWrites) == (t, Failure(message), false)
  {
  }

  /** A cache hit answers with the cached recipes and their count, does not ask the model,
      and changes nothing. */
  lemma CacheHitSkipsModel(t: Tables, request: RecipeRequest, now: int,
                           llm: string -> Result<string>, parse: string -> Option<Ai.Json>, stamp: nat,
                           inserts: nat -> Outcome, cacheWrites: nat -> Outcome)
    requires t.Valid()
    requires |FindCachedRecipes(t, request, now)| > 0
    ensures var cached := FindCachedRecipes(t, request, now);
      Generated(t, request, now, llm, parse, stamp, Done, inserts, cacheWrites) == (t, Success(RecipeResponse(cached, |cached|)), false)
  {
  }

  /** A failed generation is rethrown as "Failed to generate recipes" and nothing is saved. */
  lemma GenerationFailureSavesNothing(t: Tables, request: RecipeRequest, now: int,
                                      llm: string -> Result<string>, parse: string -> Option<Ai.Json>, stamp: nat,
                                      inserts: nat -> Outcome, cacheWrites: nat -> Outcome)
    requires t.Valid()
    requires |FindCachedRecipes(t, request, now)| == 0
    requires Ai.GenerateRecipes(SortedRequest(request), llm, parse, stamp).Failure?
    ensures Generated(t, request, now, llm, parse, stamp, Done, inserts, cacheWrites) == (t, Failure(Ai.GenerateFailure), true)
  {
  }

  /** Sorting the ingredients does not change the cache key. */
  lemma SortedRequestSameKey(request: RecipeRequest)
    ensures KeyOf(SortedRequest(request)) == KeyOf(request)
  {
    SortPermutes(request.ingredients);
    HashPermutationInvariant(SortStrings(request.ingredients), request.ingredients);
  }

  /** On a cache miss with every save succeeding, the answer is the generated list with
      its length, every generated recipe can be fetched by id, and the request's cache
      entry lists every generated id. */
  lemma GeneratedAreStoredAndCached(t: Tables, request: RecipeRequest, now: int,
                                    llm: string -> Result<string>, parse: string -> Option<Ai.Json>, stamp: nat,
                                    inserts: nat -> Outcome, cacheWrites: nat -> Outcome)
    requires t.Valid()
    requires |FindCachedRecipes(t, request, now)| == 0
    requires Ai.GenerateRecipes(SortedRequest(request), llm, parse, stamp).Success?
    requires forall i: nat :: inserts(i).Done? && cacheWrites(i).Done?
    ensures var recipes := Ai.GenerateRecipes(SortedRequest(request), llm, parse, stamp).value;
      var (u, r, asked) := Generated(t, request, now, llm, parse, stamp, Done, inserts, cacheWrites);
      && asked
      && r == Success(RecipeResponse(recipes, |recipes|))
      && u.Valid()
      && (forall i :: 0 <= i < |recipes| ==> RecipeById(u, recipes[i].id) == Some(StoredForm(recipes[i])))
      && (forall i :: 0 <= i < |recipes| ==> KeyOf(request) in u.cache && recipes[i].id in u.cache[KeyOf(request)].ids)
  {
    var sorted := SortedRequest(request);
    var recipes := Ai.GenerateRecipes(sorted, llm, parse, stamp).value;
    var key := KeyOf(sorted);
    SortedRequestSameKey(request);
    Ai.GeneratedRecipesDistinctIds(sorted, llm, parse, stamp);
    SavePrefixValid(t, recipes, key, now, inserts, cacheWrites, |recipes|);
    SavePrefixNoError(t, recipes, key, now, inserts, cacheWrites, |recipes|);
    SavePrefixCaches(t, recipes, key, now, inserts, cacheWrites, |recipes|);
    forall i | 0 <= i < |recipes|
      ensures var rows := SavePrefix(t, recipes, key, now, inserts, cacheWrites, |recipes|).0.recipes;
        recipes[i].id in rows && rows[recipes[i].id] == ToRow(recipes[i])
    {
      SavePrefixStores(t, recipes, key, now, inserts, cacheWrites, |recipes|, i);
    }
  }

  /** Asking again within the hour after a successful generation (whose first id was new
      to the cache entry) is answered from the cache without asking the model. */
  lemma RepeatedRequestHitsCache(t: Tables, request: RecipeRequest, now: int, later: int,
                                 llm: string -> Result<string>, parse: string -> Option<Ai.Json>, stamp: nat,
                                 inserts: nat -> Outcome, cacheWrites: nat -> Outcome,
                                 llm2: string -> Result<string>, stamp2: nat)
    requires t.Valid()
    requires |FindCachedRecipes(t, request, now)| == 0
    requires Ai.GenerateRecipes(SortedRequest(request), llm, parse, stamp).Success?
    requires var recipes := Ai.GenerateRecipes(SortedRequest(request), llm, parse, stamp).value;
      |recipes| > 0 && (KeyOf(request) !in t.cache || recipes[0].id !in t.cache[KeyOf(request)].ids)
    requires forall i: nat :: inserts(i).Done? && cacheWrites(i).Done?
    requires later - CacheTtlSeconds < now
    ensures var u := Generated(t, request, now, llm, parse, stamp, Done, inserts, cacheWrites).0;
      && u.Valid()
      && var again := Generated(u, request, later, llm2, parse, stamp2, Done, inserts, cacheWrites);
      again.0 == u && again.1.Success? && |again.1.value.recipes| > 0 && !again.2
  {
    var sorted := SortedRequest(request);
    var recipes := Ai.GenerateRecipes(sorted, llm, parse, stamp).value;
    var key := KeyOf(sorted);
    SortedRequestSameKey(request);
    SavePrefixValid(t, recipes, key, now, inserts, cacheWrites, |recipes|);
    SavePrefixCaches(t, recipes, key, now, inserts, cacheWrites, |recipes|);
    SavePrefixFreshens(t, recipes, key, now, inserts, cacheWrites, |recipes|);
    var u := SaveAll(t, recipes, key, now, inserts, cacheWrites).0;
    assert Fresh(u, key, later);
    assert recipes[0].id in u.cache[key].ids;
    assert recipes[0].id in u.recipes by {
      Ai.GeneratedRecipesDistinctIds(sorted, llm, parse, stamp);
      SavePrefixStores(t, recipes, key, now, inserts, cacheWrites, |recipes|, 0);
    }
    assert MapRowToRecipe(u.recipes[recipes[0].id]) in FindCachedRecipes(u, request, later);
  }

  /** The cached answer to the repeated request holds every recipe the first request
      generated, in the form the store keeps. */
  lemma RepeatedRequestReturnsSaved(t: Tables, request: RecipeRequest, now: int, later: int,
                                    llm: string -> Result<string>, parse: string -> Option<Ai.Json>, stamp: nat,
                                    inserts: nat -> Outcome, cacheWrites: nat -> Outcome,
                                    llm2: string -> Result<string>, stamp2: nat)
    requires t.Valid()
    requires |FindCachedRecipes(t, request, now)| == 0
    requires Ai.GenerateRecipes(SortedRequest(request), llm, parse, stamp).Success?
    requires var recipes := Ai.GenerateRecipes(SortedRequest(request), llm, parse, stamp).value;
      |recipes| > 0 && (KeyOf(request) !in t.cache || recipes[0].id !in t.cache[KeyOf(request)].ids)
    requires forall i: nat :: inserts(i).Done? && cacheWrites(i).Done?
    requires later - CacheTtlSeconds < now
    ensures var recipes := Ai.GenerateRecipes(SortedRequest(request), llm, parse, stamp).value;
      var u := Generated(t, request, now, llm, parse, stamp, Done, inserts, cacheWrites).0;
      && u.Valid()
      && var again := Generated(u, request, later, llm2, parse, stamp2, Done, inserts, cacheWrites);
      && again.0 == u && again.1.Success? && !again.2
      && (forall i :: 0 <= i < |recipes| ==> StoredForm(recipes[i]) in again.1.value.recipes)
  {
    var recipes := Ai.GenerateRecipes(SortedRequest(request), llm, parse, stamp).value;
    RepeatedRequestHitsCache(t, request, now, later, llm, parse, stamp, inserts, cacheWrites, llm2, stamp2);
    GeneratedAreStoredAndCached(t, request, now, llm, parse, stamp, inserts, cacheWrites);
    var u := Generated(t, request, now, llm, parse, stamp, Done, inserts, cacheWrites).0;
    var again := Generated(u, request, later, llm2, parse, stamp2, Done, inserts, cacheWrites);
    assert again.1.value.recipes == FindCachedRecipes(u, request, later);
    forall i | 0 <= i < |recipes|
      ensures StoredForm(recipes[i]) in again.1.value.recipes
    {
      assert RecipeById(u, recipes[i].id) == Some(StoredForm(recipes[i]));
    }
  }

  /** The recipe service, over the one database client it owns. */
  class RecipeService {
    const db: DatabaseService

    ghost predicate Valid()
      reads this, db
    {
      db.Valid()
    }

    /** Opens the store over whatever the database file holds. */
    constructor (existing: Tables)
      requires existing.Valid()
      ensures Valid() && db.State() == existing
    {
      db := new DatabaseService(existing);
    }

    /** generateRecipes: `llm`, `parse` and `stamp` stand for the model, JSON.parse and
        the clock of the generation collaborator. */
    method GenerateRecipes(request: RecipeRequest, now: int,
                           llm: string -> Result<string>, parse: string -> Option<Ai.Json>, stamp: nat,
                           lookup: Outcome, inserts: nat -> Outcome, cacheWrites: nat -> Outcome)
      returns (r: Result<RecipeResponse>, asked: bool)
      requires Valid()
      modifies db
      ensures Valid()
      ensures (db.State(), r, asked) == Generated(old(db.State()), request, now, llm, parse, stamp, lookup, inserts, cacheWrites)
    {
      if lookup.Failed? {
        return Failure(lookup.message), false;
      }
      var cached := FindCachedRecipes(db.State(), request, now);
      if |cached| > 0 {
        return Success(RecipeResponse(cached, |cached|)), false;
      }
      var sorted := SortedRequest(request);
      asked := true;
      var generated := Ai.GenerateRecipes(sorted, llm, parse, stamp);
      if generated.Failure? {
        r := Failure(generated.error);
        return;
      }
      var recipes := generated.value;
      var err := SaveGenerated(recipes, sorted, now, inserts, cacheWrites);
      r := if err.Some? then Failure(err.value) else Success(RecipeResponse(recipes, |recipes|));
    }

    /** The `for ... of` loop saving each generated recipe; the first failed save is
        rethrown and the later recipes are not attempted. */
    method SaveGenerated(recipes: seq<Recipe>, request: RecipeRequest, now: int,
                         inserts: nat -> Outcome, cacheWrites: nat -> Outcome)
      returns (err: Option<string>)
      requires Valid()
      modifies db
      ensures Valid()
      ensures (db.State(), err) == SaveAll(old(db.State()), recipes, KeyOf(request), now, inserts, cacheWrites)
    {
      ghost var t0 := db.State();
      ghost var key := KeyOf(request);
      var i := 0;
      while i < |recipes|
        invariant 0 <= i <= |recipes|
        invariant db.Valid()
        invariant SavePrefix(t0, recipes, key, now, inserts, cacheWrites, i) == (db.State(), None)
      {
        ghost var before := db.State();
        var saved := db.SaveRecipe(recipes[i], Some(request), now, inserts(i), cacheWrites(i));
        SavedIsStep(before, recipes[i], request, now, inserts(i), cacheWrites(i));
        assert SavePrefix(t0, recipes, key, now, inserts, cacheWrites, i + 1)
          == SaveStep(before, recipes[i], key, now, inserts(i), cacheWrites(i));
        if saved.Failure? {
          FailureSticks(t0, recipes, key, now, inserts, cacheWrites, i + 1, |recipes|);
          return Some(saved.error);
        }
        i := i + 1;
      }
      err := None;
    }

    /** saveRecipe: stores the recipe without touching the cache. */
    method SaveRecipe(recipe: Recipe, now: int, insert: Outcome) returns (r: Result<Recipe>)
      requires Valid()
      modifies db
      ensures Valid()
      ensures (db.State(), r) == Saved(old(db.State()), recipe, None, now, insert, Done)
      ensures db.cache == old(db.cache)
    {
      r := db.SaveRecipe(recipe, None, now, insert, Done);
    }

    /** getRecipeById: the store's lookup, its rejection passed on. */
    method GetRecipeById(id: string, read: Outcome) returns (r: Result<Option<Recipe>>)
      requires Valid()
      ensures r.Failure? <==> read.Failed?
      ensures r.Success? ==> (r.value.Some? <==> id in db.recipes)
      ensures r.Success? && r.value.Some? ==> r.value.value == MapRowToRecipe(db.recipes[id])
      ensures r == RecipeStore.GetRecipeById(db.State(), id, read)
    {
      r := RecipeStore.GetRecipeById(db.State(), id, read);
    }

    /** searchRecipes: the store's search, its rejection passed on. */
    method SearchRecipes(query: string, cuisine: Option<string>, read: Outcome) returns (r: Result<seq<Recipe>>)
      requires Valid()
      ensures r.Failure? <==> read.Failed?
      ensures r.Success? ==> forall x :: x in r.value <==> exists k :: k in db.recipes && SearchMatches(db.recipes[k], query, cuisine) && x == MapRowToRecipe(db.recipes[k])
      ensures r == RecipeStore.SearchRecipes(db.State(), query, cuisine, read)
    {
      r := RecipeStore.SearchRecipes(db.State(), query, cuisine, read);
    }

    /** getFavoriteRecipes: the store's favorites, its rejection passed on. */
    method GetFavoriteRecipes(userId: Option<string>, read: Outcome) returns (r: Result<seq<Recipe>>)
      requires Valid()
      ensures r.Failure? <==> read.Failed?
      ensures r.Success? ==> forall x :: x in r.value <==> exists f :: f in db.favorites && FavoriteSelected(db.State(), f, userId) && x == MapRowToRecipe(db.recipes[f.recipeId])
      ensures r == RecipeStore.GetFavoriteRecipes(db.State(), userId, read)
    {
      r := RecipeStore.GetFavoriteRecipes(db.State(), userId, read);
    }
  }
}
