# Reverse Cookbook — a Dafny model of its core

Reverse Cookbook suggests recipes for the ingredients a user has at hand. The backend builds a
prompt for a language model, cleans up and normalises the JSON reply, and saves each recipe in a
SQLite store. It also keeps a one-hour cache keyed by a fingerprint of the ingredient list and
the cuisine, so that repeated requests are answered from the store. A static catalog of 35
ingredients feeds the picker. On the frontend, an availability tracker records which of a recipe's
ingredients the cook has, which are missing, and which were swapped for an alternative. A few
small UI rules decide which events reach that tracker.

The model follows the source file by file:

| file | module | models |
|---|---|---|
| `wrappers.dfy` | `Wrappers` | `Option` and `Result` |
| `types.dfy` | `Types` | the shared types (`shared/src/types.ts`) and JavaScript truthiness of optional text and numbers |
| `strings.dfy` | `Strings` | ASCII lower/upper case, substring search, `join`, `trim`, decimal rendering, JavaScript's default string order and an insertion sort |
| `database_service.dfy` | `RecipeStore` | the three tables as maps and sequences, the store's operations as transitions on a `Tables` value, and the class `DatabaseService` whose methods apply them |
| `recipe_service.dfy` | `RecipeOrchestration` | the cache-hit / generate / save rule and the pass-through operations (class `RecipeService`) |
| `ai_service.dfy` | `Ai` | the prompt, the fence stripping and default filling of the reply, and the error wrapping |
| `ingredient_service.dfy` | `IngredientCatalog` | the catalog, grouping by category, search, lookup by id, category labels |
| `availability.dfy` | `Availability` | the availability tracker (class `IngredientAvailability`) over an insertion-ordered map |
| `availability_list.dfy` | `AvailabilityList` | the list's routing of status events, the disabled rule and the summary counts |
| `status_button.dfy` | `StatusButton` | which events each status control can report |
| `alternatives_modal.dfy` | `AlternativesModal` | the substitution dialog's selection state and button visibility |
| `ingredient_selector.dfy` | `IngredientSelection` | adding, removing and filtering selected ingredient names |

Behaviour outside the program becomes a parameter:
- `now` is the database clock (seconds), and `stamp` is the value of `Date.now()`.
- `llm` is the model call and `parse` is `JSON.parse`, a partial function into a small JSON datatype.
- Whether a database statement fails is an `Outcome` parameter (`Done` or `Failed(message)`): one for the insert and one for the cache write of each save, one for the lookup of `findCachedRecipes`, and one for each of the reads of `getRecipeById`, `searchRecipes` and `getFavoriteRecipes`.

Where the code does something a reader might not expect, the model follows the code:
- `hashIngredients` sorts the raw strings before lowercasing the joined text (`databaseService.ts:213`). The fingerprint is therefore insensitive to order but not to case: `["Flour","egg"]` gives `flour,egg` and `["egg","flour"]` gives `egg,flour` (`RecipeStore.HashIsCaseSensitiveInOrder`).
- A cache entry's timestamp is refreshed only when a new id is appended (`databaseService.ts:195-201`); re-saving a listed id leaves an expired entry expired (`RecipeStore.ResaveDoesNotRefresh`).
- The search SQL parses as `title LIKE q OR (description LIKE q AND cuisine = c)` (`databaseService.ts:102-107`): a title match ignores the cuisine filter (`RecipeStore.SearchTitleIgnoresCuisine`).
- Marking an ingredient unavailable through the list never sets its status (`AvailabilityList.NeverMarksUnavailable`).
- Substituting onto a name that already has an entry overwrites that entry in its place (`Availability.SubstituteEffect`).

## Model

| member | source | states |
|---|---|---|
| RecipeStore.EmptyTables | backend/src/services/databaseService.ts:7-48 | the freshly created tables are well formed: the row order lists exactly the stored ids, each row is filed under its own id, and each cache entry is non-empty and free of duplicates |
| RecipeStore.MapRowToRecipe | backend/src/services/databaseService.ts:216-229 | a row maps to a recipe with the row's id, title and cuisine |
| RecipeStore.ToRow | backend/src/services/databaseService.ts:52-67 | the row written for a recipe has its id and reads back as the recipe with description defaulted to `""` and tags to `[]` |
| RecipeStore.HashPermutationInvariant | backend/src/services/databaseService.ts:212-214 | two ingredient lists that are permutations of each other have the same fingerprint |
| RecipeStore.HashIsCaseSensitiveInOrder | backend/src/services/databaseService.ts:213 | sorting before lowercasing: `["Flour","egg"]` and `["egg","flour"]` give different fingerprints |
| RecipeStore.Hash | backend/src/services/databaseService.ts:212-214 | the fingerprint: the raw ingredient strings sorted in string order, joined with commas, then lowercased; HashPermutationInvariant and HashIsCaseSensitiveInOrder state its properties |
| RecipeStore.Upsert | backend/src/services/databaseService.ts:52-55 | INSERT OR REPLACE: the ids become the old ids plus the recipe's; cache and favorites are untouched |
| RecipeStore.UpsertValid | backend/src/services/databaseService.ts:52-55 | the upsert keeps the store well formed |
| RecipeStore.CacheAppend | backend/src/services/databaseService.ts:193-207 | the entry for the key exists afterwards and lists the id; it keeps every id it had; every other entry is unchanged |
| RecipeStore.CacheAppendCases | backend/src/services/databaseService.ts:193-207 | a new key gets `[id]` stamped now; a new id is appended and the stamp set to now; an id already listed changes nothing |
| RecipeStore.CacheAppendValid | backend/src/services/databaseService.ts:181-210 | the cache append keeps the store well formed |
| RecipeStore.SavedAt | backend/src/services/databaseService.ts:50-80 | saveRecipe on a cache key: a failed INSERT rejects with its error and changes nothing; otherwise the row is upserted, the cache entry is appended to when a key is given and its write succeeds, and the promise resolves with the recipe; SaveIsUpsert, SaveCacheBestEffort and SaveFailureChangesNothing state its properties |
| RecipeStore.Saved | backend/src/services/databaseService.ts:50-80 | saveRecipe with an optional request: the cache key is the request's, and there is none without a request |
| RecipeStore.SavedAtValid | backend/src/services/databaseService.ts:50-80 | a save on a given cache key keeps the store well formed, whatever each statement's outcome |
| RecipeStore.SavedValid | backend/src/services/databaseService.ts:50-80 | a save with or without a request keeps the store well formed, whatever each statement's outcome |
| RecipeStore.RecipeById | backend/src/services/databaseService.ts:84-97 | the row stored under the id, mapped to a recipe, exactly when such a row exists |
| RecipeStore.GetRecipeById | backend/src/services/databaseService.ts:82-98 | a failed statement rejects with its error; otherwise the promise resolves with a recipe exactly when a row has the id, namely that row mapped, and with null otherwise |
| RecipeStore.SearchRows | backend/src/services/databaseService.ts:100-119 | over a list of stored ids, the results are exactly the matching rows among them, mapped |
| RecipeStore.SearchMatches | backend/src/services/databaseService.ts:102-107 | the WHERE clause as SQL parses it: title LIKE q, or description LIKE q with the cuisine condition, which a missing or empty cuisine drops |
| RecipeStore.MatchingRecipes | backend/src/services/databaseService.ts:102-118 | a recipe is selected exactly when some stored row matches `title LIKE q OR (description LIKE q AND cuisine = c)` (case-insensitive substring), as that row mapped |
| RecipeStore.SearchRecipes | backend/src/services/databaseService.ts:100-119 | a failed statement rejects with its error; otherwise the promise resolves with exactly the recipes of the matching rows |
| RecipeStore.SearchTitleIgnoresCuisine | backend/src/services/databaseService.ts:102-107 | a row whose title matches is returned whatever cuisine filter is given |
| RecipeStore.Fresh | backend/src/services/databaseService.ts:126-128 | the entry for the key exists and was stamped less than one hour before now |
| RecipeStore.RecipesWithIds | backend/src/services/databaseService.ts:143-151 | the IN query returns no more recipes than ids, exactly the stored recipes among the ids, and drops ids that are not stored |
| RecipeStore.RecipesWithIdsAppend | backend/src/services/databaseService.ts:143-151 | a stored id at the end of the list is returned |
| RecipeStore.FindCachedRecipes | backend/src/services/databaseService.ts:121-155 | `[]` unless the entry for (fingerprint, cuisine) is younger than one hour; otherwise exactly the stored recipes among its ids |
| RecipeStore.FindCachedOrderInsensitive | backend/src/services/databaseService.ts:123 | requests whose ingredient lists are permutations hit the same cache entry |
| RecipeStore.FavoritesFrom | backend/src/services/databaseService.ts:157-179 | over a list of favorites, the results are the stored recipes of the favorites that pass the user filter |
| RecipeStore.FavoriteRecipes | backend/src/services/databaseService.ts:159-169 | a recipe is selected exactly when some favorite passing the user filter names its stored row |
| RecipeStore.GetFavoriteRecipes | backend/src/services/databaseService.ts:157-179 | a failed statement rejects with its error; otherwise the promise resolves with exactly the recipes of the favorites passing the user filter |
| RecipeStore.SaveIsUpsert | backend/src/services/databaseService.ts:50-98 | a successful save resolves to the recipe; afterwards getRecipeById returns its stored form and every other id reads as before |
| RecipeStore.SaveTwiceKeepsLatest | backend/src/services/databaseService.ts:52-55 | two saves of one id leave one row, holding the later recipe |
| RecipeStore.SaveCacheBestEffort | backend/src/services/databaseService.ts:73-77 | without a request, or when the cache write fails, the save still succeeds and the cache is unchanged |
| RecipeStore.SaveFailureChangesNothing | backend/src/services/databaseService.ts:67-71 | a failed INSERT rejects with its error and changes nothing |
| RecipeStore.SaveThenFindCached | backend/src/services/databaseService.ts:73-77 | after a save with a request whose id is new to its entry, the recipe is a cache hit for that request for the next hour |
| RecipeStore.ResaveDoesNotRefresh | backend/src/services/databaseService.ts:195-201 | re-saving a listed id does not refresh an expired entry: the lookup still misses |
| RecipeStore.AppendRevivesExpiredEntry | backend/src/services/databaseService.ts:195-201 | appending a new id to an expired entry makes the ids it already held hits again |
| RecipeStore.DatabaseService.constructor | backend/src/services/databaseService.ts:7-48 | the client opens over a well-formed store and holds it unchanged |
| RecipeStore.DatabaseService.SaveRecipe | backend/src/services/databaseService.ts:50-80 | the new tables and the result are those of the save transition, and the store stays well formed |
| RecipeStore.DatabaseService.CacheRecipe | backend/src/services/databaseService.ts:181-210 | only the cache changes: by the cache append when the write succeeds, not at all when it fails |
| RecipeStore.DatabaseService.HashIngredients | backend/src/services/databaseService.ts:212-214 | the caller's array is left sorted (a permutation, in string order) and the result is the fingerprint of the original list |
| RecipeOrchestration.SavedIsStep | backend/src/services/recipeService.ts:28-30 | one pass of the loop is saveRecipe with the request, rethrowing its error |
| RecipeOrchestration.SaveStepRows | backend/src/services/recipeService.ts:29 | a successful pass writes the recipe's row |
| RecipeOrchestration.SaveStepCache | backend/src/services/recipeService.ts:29 | a fully successful pass appends the id to the request's cache entry |
| RecipeOrchestration.SavePrefix | backend/src/services/recipeService.ts:28-30 | the first k passes of the loop: each pass saves one recipe with the request, and the loop stops at the first failed save with that error |
| RecipeOrchestration.SaveAll | backend/src/services/recipeService.ts:28-30 | every pass of the loop, in the order of the generated list |
| RecipeOrchestration.SavePrefixValid | backend/src/services/recipeService.ts:28-30 | saving any prefix of the generated recipes keeps the store well formed |
| RecipeOrchestration.FailureSticks | backend/src/services/recipeService.ts:28-30 | after the first failed save the loop stops: longer prefixes end in the same state with the same error |
| RecipeOrchestration.StopsAtFirstFailure | backend/src/services/recipeService.ts:28-30 | a save that fails after successful ones rethrows its error and keeps the recipes saved before it |
| RecipeOrchestration.SavePrefixNoError | backend/src/services/recipeService.ts:28-30 | when every save succeeds, no error is raised |
| RecipeOrchestration.SavePrefixUnfold | backend/src/services/recipeService.ts:28-30 | without an earlier error, the loop's k-th pass is one save step after the first k-1 |
| RecipeOrchestration.PrefixRowsStep | backend/src/services/recipeService.ts:29 | a successful k-th pass writes that recipe's row over the rows written before |
| RecipeOrchestration.SavePrefixStores | backend/src/services/recipeService.ts:28-30 | when every save succeeds, each saved recipe's row is the one written for it (ids being distinct, no later save overwrites it) |
| RecipeOrchestration.ListedStep | backend/src/services/recipeService.ts:29 | one more cache append keeps the ids listed before it |
| RecipeOrchestration.SavePrefixCaches | backend/src/services/recipeService.ts:28-30 | after a fully successful loop the request's cache entry lists every saved id |
| RecipeOrchestration.SavePrefixFreshens | backend/src/services/recipeService.ts:28-30 | when the first id is new to the entry, the entry's timestamp is now at the end of the loop |
| RecipeOrchestration.LookupFailureRethrown | backend/src/services/recipeService.ts:14-39 | a failed cache lookup is rethrown, the model is not asked and nothing changes |
| RecipeOrchestration.CacheHitSkipsModel | backend/src/services/recipeService.ts:16-24 | a non-empty cache result is returned with its length as the count, without asking the model and without changes |
| RecipeOrchestration.GenerationFailureSavesNothing | backend/src/services/recipeService.ts:26-39 | a failed generation is rethrown as "Failed to generate recipes" and nothing is saved |
| RecipeOrchestration.SortedRequestSameKey | backend/src/services/databaseService.ts:213 | sorting the request's ingredient list in place does not change its cache key |
| RecipeOrchestration.Generated | backend/src/services/recipeService.ts:14-40 | generateRecipes: a failed lookup is rethrown; a non-empty cache result is returned with its count; otherwise the model is asked with the sorted request, its failure rethrown and its recipes saved in order; LookupFailureRethrown, CacheHitSkipsModel, GenerationFailureSavesNothing and GeneratedAreStoredAndCached state its cases |
| RecipeOrchestration.GeneratedAreStoredAndCached | backend/src/services/recipeService.ts:26-35 | on a miss with every save succeeding: the answer is the generated list with its length, each recipe reads back by id, and the cache entry lists every id |
| RecipeOrchestration.RepeatedRequestHitsCache | backend/src/services/recipeService.ts:14-35 | the same request within the hour after a successful generation is answered from the cache: the store is unchanged, the model is not asked and the answer is non-empty |
| RecipeOrchestration.RepeatedRequestReturnsSaved | backend/src/services/recipeService.ts:14-35 | the cached answer to that repeated request holds every recipe the first request generated, in its stored form |
| RecipeOrchestration.RecipeService.constructor | backend/src/services/recipeService.ts:9-12 | the service opens its database client over a well-formed store |
| RecipeOrchestration.RecipeService.GenerateRecipes | backend/src/services/recipeService.ts:14-40 | the new store, the answer and whether the model was asked are those of the generation rule |
| RecipeOrchestration.RecipeService.SaveGenerated | backend/src/services/recipeService.ts:28-30 | the loop's final store and error are those of saving the recipes in order, stopping at the first failure |
| RecipeOrchestration.RecipeService.SaveRecipe | backend/src/services/recipeService.ts:42-44 | a save without a request; the cache is unchanged |
| RecipeOrchestration.RecipeService.GetRecipeById | backend/src/services/recipeService.ts:46-48 | the store's lookup with its rejection passed on: it fails exactly when the read fails, and otherwise gives a recipe exactly when the id is stored |
| RecipeOrchestration.RecipeService.SearchRecipes | backend/src/services/recipeService.ts:50-52 | the store's search with its rejection passed on: it fails exactly when the read fails, and otherwise gives exactly the recipes of matching rows |
| RecipeOrchestration.RecipeService.GetFavoriteRecipes | backend/src/services/recipeService.ts:54-56 | the store's favorites with its rejection passed on: it fails exactly when the read fails, and otherwise gives exactly the recipes of the selected favorites |
| Ai.PromptNamesIngredients | backend/src/services/aiService.ts:32 | the prompt names every requested ingredient |
| Ai.PromptNamesCuisine | backend/src/services/aiService.ts:32-62 | the prompt names the cuisine, and the closing template asks for it back |
| Ai.PromptWithoutPreferences | backend/src/services/aiService.ts:32-62 | with no truthy preference the prompt is the opening sentence followed directly by the template |
| Ai.PromptWithAllPreferences | backend/src/services/aiService.ts:34-44 | with all three preferences truthy the clauses are difficulty, cooking time, servings, in that order |
| Ai.BuildRecipePrompt | backend/src/services/aiService.ts:29-65 | the opening sentence, then the truthy preference clauses, then the JSON template; the Prompt lemmas state its properties |
| Ai.StripFencesPlain | backend/src/services/aiService.ts:83 | text without backticks passes the fence removal unchanged |
| Ai.StripClosingFence | backend/src/services/aiService.ts:83 | a closing fence is removed together with the newline before it |
| Ai.StripJsonFence | backend/src/services/aiService.ts:83 | a body fenced as ```` ```json ```` loses both fences and both newlines |
| Ai.StripBareFence | backend/src/services/aiService.ts:83 | a body fenced by bare ```` ``` ```` keeps the newline after the opening fence |
| Ai.CleanFencedResponse | backend/src/services/aiService.ts:83 | a fenced reply surrounded by whitespace cleans to its body |
| Ai.StripFences | backend/src/services/aiService.ts:83 | the global replace of ```` ```json\n? ```` and ```` \n?``` ```` as a left-to-right scan, the first alternative tried first; the Strip lemmas state its properties |
| Ai.CleanResponse | backend/src/services/aiService.ts:83 | the reply trimmed, then its fences stripped |
| Ai.TextItems | backend/src/services/aiService.ts:90-91 | a string is kept exactly when it is an item of the array |
| Ai.TextItemsOfStrings | backend/src/services/aiService.ts:90-91 | an array of strings is kept whole and in order |
| Ai.NormaliseRecipe | backend/src/services/aiService.ts:86-97 | for every parsed value: the recipe gets the given id; title, cuisine, difficulty and description keep a non-empty string and otherwise get "Untitled Recipe", "Unknown", "medium" and ""; cooking time and servings keep a non-zero number and otherwise get 30 and 4; ingredients, instructions and tags keep the string items of an array and are empty otherwise |
| Ai.NormaliseEmptyObject | backend/src/services/aiService.ts:88-96 | an empty object gets every default: "Untitled Recipe", "Unknown", 30, 4, "medium", `""`, `[]` |
| Ai.NormaliseFalsyAndUnchecked | backend/src/services/aiService.ts:92-94 | cooking time 0 becomes 30 and servings 0 becomes 4, while any non-empty difficulty is kept unchecked |
| Ai.NormaliseKeepsTruthyValues | backend/src/services/aiService.ts:88-93 | truthy values of the right type are kept as given |
| Ai.GeneratedIdsDistinct | backend/src/services/aiService.ts:87 | `generated-{stamp}-{index}` differs for different indices |
| Ai.ParsedRecipes | backend/src/services/aiService.ts:84-97 | the parsed value can be mapped over without throwing: it is an array with no `null` element |
| Ai.ParseRecipeResponse | backend/src/services/aiService.ts:81-103 | success exactly when the cleaned reply parses to an array without `null` elements; the recipes are then the normalised elements, one per element, with indexed and pairwise distinct ids; otherwise the error is "Failed to parse recipe response" |
| Ai.GenerateRecipes | backend/src/services/aiService.ts:18-27 | any failure surfaces as "Failed to generate recipes"; success is the parse of the model's reply to the prompt |
| Ai.UnparseableReplyFails | backend/src/services/aiService.ts:18-27 | a reply that does not parse makes generation fail with "Failed to generate recipes" |
| Ai.GeneratedRecipesDistinctIds | backend/src/services/aiService.ts:86-87 | the recipes of one generation have pairwise distinct ids |
| IngredientCatalog.ProteinsPositions | backend/src/services/ingredientService.ts:5-11 | each protein id has its own catalog position |
| IngredientCatalog.VegetablesPositions | backend/src/services/ingredientService.ts:13-21 | each vegetable id has its own catalog position |
| IngredientCatalog.GrainsPositions | backend/src/services/ingredientService.ts:23-28 | each grain id has its own catalog position |
| IngredientCatalog.DairyPositions | backend/src/services/ingredientService.ts:30-34 | each dairy id has its own catalog position |
| IngredientCatalog.HerbsAndSpicesPositions | backend/src/services/ingredientService.ts:36-42 | each herb and spice id has its own catalog position |
| IngredientCatalog.PantryPositions | backend/src/services/ingredientService.ts:44-50 | each pantry id has its own catalog position |
| IngredientCatalog.CatalogPositions | backend/src/services/ingredientService.ts:4-51 | the catalog has 35 items and the id at each index determines that index |
| IngredientCatalog.GetAllIngredients | backend/src/services/ingredientService.ts:53-55 | the catalog has 35 items with pairwise distinct ids |
| IngredientCatalog.CategoryKeysExact | backend/src/services/ingredientService.ts:67 | a category has a group exactly when some item has that category |
| IngredientCatalog.CategoryKeysDistinct | backend/src/services/ingredientService.ts:67-70 | no category has two groups |
| IngredientCatalog.MembersExact | backend/src/services/ingredientService.ts:60-65 | a group holds exactly the items of its category |
| IngredientCatalog.MembersOfAbsentKey | backend/src/services/ingredientService.ts:61-62 | a category not yet seen has an empty group |
| IngredientCatalog.EachInExactlyOneGroup | backend/src/services/ingredientService.ts:57-71 | every item is in the group of its own category and in no other |
| IngredientCatalog.GroupKeepsOrder | backend/src/services/ingredientService.ts:64 | an item is pushed at the end of its own group only |
| IngredientCatalog.PrefixStep | backend/src/services/ingredientService.ts:60-63 | a new category is added after the ones already seen; a known one keeps the key list |
| IngredientCatalog.GetIngredientsByCategory | backend/src/services/ingredientService.ts:57-71 | the loop's groups are the categories in first-appearance order, each with its items in catalog order, under its label |
| IngredientCatalog.Grouped | backend/src/services/ingredientService.ts:57-71 | one group per category in first-appearance order, labelled by formatCategoryName and holding that category's items; the grouping lemmas state its properties |
| IngredientCatalog.FormatCategoryName | backend/src/services/ingredientService.ts:84-96 | a known key gets its fixed label; any other name keeps its length and its text after the first character |
| IngredientCatalog.Label | backend/src/services/ingredientService.ts:85-93 | the fixed label of each of the seven known category keys, and none for any other name |
| IngredientCatalog.LabelKeysLowerCase | backend/src/services/ingredientService.ts:85-93 | every known key starts with a lower-case letter |
| IngredientCatalog.LabelsCapitalised | backend/src/services/ingredientService.ts:85-93 | every fixed label starts with an upper-case letter |
| IngredientCatalog.FormatIdempotent | backend/src/services/ingredientService.ts:84-96 | formatting a formatted name changes nothing |
| IngredientCatalog.SearchIngredients | backend/src/services/ingredientService.ts:73-78 | exactly the items whose lowercased name contains the lowercased query, no more than the catalog holds |
| IngredientCatalog.SearchAppend | backend/src/services/ingredientService.ts:75-77 | searching a concatenation gives the results of each part in order, so the results keep catalog order |
| IngredientCatalog.SearchSingle | backend/src/services/ingredientService.ts:75-77 | a single item is kept exactly when its name matches |
| IngredientCatalog.SearchEmptyQuery | backend/src/services/ingredientService.ts:73-78 | an empty query returns every item |
| IngredientCatalog.SearchIgnoresCase | backend/src/services/ingredientService.ts:74 | lowercasing the query does not change the result |
| IngredientCatalog.GetIngredientById | backend/src/services/ingredientService.ts:80-82 | an item exactly when some item has the id, and then that item has the id |
| IngredientCatalog.GetIngredientByIdUnique | backend/src/services/ingredientService.ts:80-82 | on a catalog with distinct ids, each item is found by its own id |
| Availability.PutValid | frontend/src/hooks/useIngredientAvailability.ts:40-45 | `Map.set` of an entry under its own name keeps the map well formed |
| Availability.DeleteValid | frontend/src/hooks/useIngredientAvailability.ts:88 | `Map.delete` keeps the map well formed |
| Availability.Put | frontend/src/hooks/useIngredientAvailability.ts:40-45 | `Map.set`: the key is appended when new and keeps its place otherwise, and holds the entry; PutValid and DeleteAfterPut state its properties |
| Availability.Delete | frontend/src/hooks/useIngredientAvailability.ts:88 | `Map.delete`: the key leaves the order and the entries; DeleteValid states its property |
| Availability.Initial | frontend/src/hooks/useIngredientAvailability.ts:23-49 | the map built from the recipe's names, each entry available exactly when some user-selected name matches it ignoring case; InitialShape, InitialEntries and InitialOrder state its properties |
| Availability.InitialShape | frontend/src/hooks/useIngredientAvailability.ts:23-49 | the initial map is well formed, its keys are exactly the recipe's ingredient names, each with its construction entry |
| Availability.InitialEntries | frontend/src/hooks/useIngredientAvailability.ts:26-46 | each entry names its key as current and original ingredient, has no substitute, and is available and user-selected exactly when a selected name matches ignoring case, unknown otherwise |
| Availability.InitialOrder | frontend/src/hooks/useIngredientAvailability.ts:26-46 | for distinct names the map's order is the recipe's order |
| Availability.BuildInitialMap | frontend/src/hooks/useIngredientAvailability.ts:24-48 | the `forEach` loop builds the initial map |
| Availability.SetStatusEffect | frontend/src/hooks/useIngredientAvailability.ts:65-77 | only the status of the named entry changes; keys, order and all other entries stay; an absent name changes nothing |
| Availability.SetStatus | frontend/src/hooks/useIngredientAvailability.ts:65-77 | setIngredientStatus's new map: the status of an existing entry replaced, the map unchanged otherwise; SetStatusEffect states its properties |
| Availability.SubstituteEffect | frontend/src/hooks/useIngredientAvailability.ts:79-101 | the old key goes, the new name holds an available entry with the substitute and the old entry's original name and flag, an existing name is overwritten in place, others stay; an absent key changes nothing |
| Availability.Substitute | frontend/src/hooks/useIngredientAvailability.ts:79-101 | substituteIngredient's new map: the old key deleted, then an available entry for the substitute set with the old original name and flag; SubstituteEffect states its properties |
| Availability.DeleteAfterPut | frontend/src/hooks/useIngredientAvailability.ts:88-91 | deleting a key just added restores the map |
| Availability.SubstituteTwice | frontend/src/hooks/useIngredientAvailability.ts:85-86 | repeating a substitution changes nothing more |
| Availability.InitialTracks | frontend/src/hooks/useIngredientAvailability.ts:26-46 | the initial map satisfies the tracker invariant: entries under their own names, original names from the recipe, user-selected flags from the selection |
| Availability.SetStatusTracks | frontend/src/hooks/useIngredientAvailability.ts:70-73 | a status update keeps the invariant |
| Availability.SubstituteTracks | frontend/src/hooks/useIngredientAvailability.ts:91-96 | a substitution keeps the invariant (the original name and user-selected flag are carried over) |
| Availability.WithStatus | frontend/src/hooks/useIngredientAvailability.ts:116-126 | exactly the entries with a given status, no more than the list holds |
| Availability.WithStatusAppend | frontend/src/hooks/useIngredientAvailability.ts:116-126 | filtering a concatenation gives the entries of each part in order, so the result keeps list order |
| Availability.WithStatusSingle | frontend/src/hooks/useIngredientAvailability.ts:116-126 | a single entry is kept exactly when it has the status |
| Availability.StatusPartition | frontend/src/hooks/useIngredientAvailability.ts:116-126 | the available, unavailable and unknown lists together are as long as the list |
| Availability.SubstitutedIngredients | frontend/src/hooks/useIngredientAvailability.ts:128-130 | exactly the entries with a non-empty substitute different from their original name |
| Availability.SubstitutedAppend | frontend/src/hooks/useIngredientAvailability.ts:128-130 | the substituted entries of a concatenation are those of each part in order |
| Availability.SubstitutedSingle | frontend/src/hooks/useIngredientAvailability.ts:128-130 | a single entry is kept exactly when it is substituted |
| Availability.IsSubstituted | frontend/src/hooks/useIngredientAvailability.ts:129 | an entry has a non-empty substitute that differs from its original name |
| Availability.FinalListIsKeyOrder | frontend/src/hooks/useIngredientAvailability.ts:112-134 | the list holds exactly the map's entries and the final names are the keys in map order |
| Availability.SubstitutionShows | frontend/src/hooks/useIngredientAvailability.ts:128-130 | a substituted entry counts as substituted exactly when the new name is non-empty and differs from the original name |
| Availability.IngredientAvailability.constructor | frontend/src/hooks/useIngredientAvailability.ts:23-53 | the state starts as the initial map |
| Availability.IngredientAvailability.SetIngredientStatus | frontend/src/hooks/useIngredientAvailability.ts:65-77 | the state becomes the status update of the old state |
| Availability.IngredientAvailability.SubstituteIngredient | frontend/src/hooks/useIngredientAvailability.ts:79-101 | the state becomes the substitution of the old state |
| Availability.IngredientAvailability.ResetIngredientAvailability | frontend/src/hooks/useIngredientAvailability.ts:103-105 | the state is the initial map again |
| Availability.IngredientAvailability.GetIngredientState | frontend/src/hooks/useIngredientAvailability.ts:107-109 | an entry exactly when the name is a key, and then the entry for that name from the list |
| AvailabilityList.HandleStatusChange | frontend/src/components/IngredientAvailabilityList.tsx:29-36 | "unavailable" requests alternatives and any other status is passed on, for the same ingredient |
| AvailabilityList.NeverMarksUnavailable | frontend/src/components/IngredientAvailabilityList.tsx:29-36 | no status event through the list makes an entry unavailable that was not |
| AvailabilityList.SelectedAvailableIsFrozen | frontend/src/components/IngredientAvailabilityList.tsx:97-101 | a disabled row (user-selected and available) is not changed by any event its control can report |
| AvailabilityList.SelectedStartDisabled | frontend/src/components/IngredientAvailabilityList.tsx:100 | a user-selected ingredient starts with its control disabled |
| AvailabilityList.IsDisabled | frontend/src/components/IngredientAvailabilityList.tsx:100 | a row's control is disabled exactly for a user-selected ingredient that is available |
| AvailabilityList.Summarize | frontend/src/components/IngredientAvailabilityList.tsx:111-116 | each count is the length of its filter (available, unavailable, unknown, substituted), the three status counts add up to the list's length, and the substituted line shows exactly when some entry is substituted |
| StatusButton.Emittable | frontend/src/components/IngredientStatusButton.tsx:16-67 | available reports only "available" and only when enabled; unavailable reports only "unavailable"; unknown reports both; "unknown" is never reported |
| StatusButton.Buttons | frontend/src/components/IngredientStatusButton.tsx:16-67 | the buttons each status renders: one for available that takes the disabled flag, one for unavailable, both for unknown |
| StatusButton.Click | frontend/src/components/IngredientStatusButton.tsx:19-21 | a click on a disabled button reports nothing, and otherwise its button's status |
| AlternativesModal.UseConfirms | frontend/src/components/IngredientAlternativesModal.tsx:126-158 | "Use" is offered only when confirming substitutes; with the no-alternatives message neither "Use" nor "Skip" shows |
| AlternativesModal.CanConfirm | frontend/src/components/IngredientAlternativesModal.tsx:28 | the confirm guard: a response, a non-empty selection and a callback |
| AlternativesModal.ShowsUse | frontend/src/components/IngredientAlternativesModal.tsx:147 | "Use" shows when the response lists alternatives, one is selected and a callback is given |
| AlternativesModal.ShowsSkip | frontend/src/components/IngredientAlternativesModal.tsx:158 | "Skip" shows when the response marks the ingredient optional |
| AlternativesModal.ShowsNoAlternatives | frontend/src/components/IngredientAlternativesModal.tsx:126 | the message shows when loading is over and the response is neither optional nor lists an alternative |
| AlternativesModal.AlternativesModal.constructor | frontend/src/components/IngredientAlternativesModal.tsx:21 | nothing is selected at first |
| AlternativesModal.AlternativesModal.HandleSelectAlternative | frontend/src/components/IngredientAlternativesModal.tsx:23-25 | the selection becomes the chosen name |
| AlternativesModal.AlternativesModal.HandleConfirmSubstitution | frontend/src/components/IngredientAlternativesModal.tsx:27-33 | with a response, a non-empty selection and a callback: the callback gets (ingredient, selection), the selection is cleared and the dialog closes; otherwise nothing happens |
| AlternativesModal.AlternativesModal.HandleClose | frontend/src/components/IngredientAlternativesModal.tsx:35-38 | the selection is cleared and the dialog closes |
| IngredientSelection.WithAdded | frontend/src/components/IngredientSelector.tsx:32-33 | the name is in the new list, appended only when absent, the old list kept as prefix, no duplicates introduced |
| IngredientSelection.IngredientSelector.AddIngredient | frontend/src/components/IngredientSelector.tsx:31-36 | the parent is told of a new list exactly when the name is new, and the query is always cleared |
| Strings.RemoveAll | frontend/src/components/IngredientSelector.tsx:38-40 | removeIngredient keeps exactly the names different from the removed one |
| IngredientSelection.RemoveUndoesAdd | frontend/src/components/IngredientSelector.tsx:31-40 | removing a name just added gives back the previous list |
| IngredientSelection.RemoveKeepsOthers | frontend/src/components/IngredientSelector.tsx:38-40 | removing a name keeps the other names in their order |
| IngredientSelection.FilteredIngredients | frontend/src/components/IngredientSelector.tsx:42-44 | exactly the search results whose name is not selected, no more than the results hold |
| IngredientSelection.FilteredAppend | frontend/src/components/IngredientSelector.tsx:42-44 | filtering a concatenation gives the kept results of each part in order, so the result keeps result order |
| IngredientSelection.FilteredSingle | frontend/src/components/IngredientSelector.tsx:42-44 | a single result is kept exactly when its name is not selected |
| IngredientSelection.SearchResults | frontend/src/hooks/useIngredients.ts:34-48 | a query that is blank after trimming gives the whole loaded list; any other gives exactly the loaded items whose name matches it ignoring case |
| IngredientSelection.OfferedItems | frontend/src/components/IngredientSelector.tsx:42-44 | for a blank query the selector offers every loaded item not selected; otherwise exactly the loaded items matching the query whose name is not selected |

## Left out

- SQLite itself is reduced to maps and sequences: the connection, the schema, and the JSON encoding of columns. A LIKE pattern is a plain case-insensitive substring test, so the `%` and `_` wildcards in a query are not modelled. `datetime('now', '-1 hour')` becomes `now - 3600` on integer seconds.
- RecipeStore.RecipesWithIds: the rows of `WHERE id IN (...)` are returned in the order the ids are listed. SQLite promises no order there.
- RecipeStore.SearchRecipes: results follow one modelled row order, in which a replaced row moves to the end. The SQL order is not specified.
- Favorites are only read: no code in the repository inserts into `favorites`.
- `cacheRecipe` is fire-and-forget: a failed lookup is logged, and the UPDATE and INSERT pass no callback, so their errors are never observed. The whole update is modelled as one synchronous best-effort step with a single `cacheWrite` outcome; when it fails the cache is unchanged. Races between concurrent identical requests are not modelled.
- The model call (`callOllama`), `checkHealth` and the behaviour of `JSON.parse` are parameters or left out. JSON numbers are integers only; floating point is not modelled.
- Ai.NormaliseRecipe: a truthy field of the wrong JSON type (a number title, a string cooking time) falls back to the default. JavaScript would keep it, but the typed `Recipe` cannot hold it. Non-string array items in ingredients, instructions and tags are dropped for the same reason, and a truthy `tags` value that is not an array becomes the empty list.
- One `Date.now()` value (`stamp`) is used for every id of a call. In JavaScript each element calls `Date.now()` again, and the calls may differ.
- RecipeStore.DatabaseService.HashIngredients sorts the caller's array in place. The orchestration models this side effect by passing the sorted request on to generation (`SortedRequest`); other holders of that array are not modelled.
- Text is ASCII: `toLowerCase`, `toUpperCase` and `trim` are modelled for ASCII letters and the common whitespace characters. The string order compares characters, not UTF-16 code units.
- `Object.keys` lists integer-like keys before other keys. The grouping model keeps first-appearance order for all category names, which matches the catalog's categories; inherited prototype keys are not modelled.
- Availability.InitialOrder holds only for distinct ingredient names. With repeated names the key keeps its first position and the last entry wins, which `Map.set` also does.
- The React lifecycle is not modelled: rendering, `useMemo` caching, and the `useEffect` that resets the tracker when the props change.
- No caller that connects `IngredientAvailabilityList` to the tracker is modelled; `AvailabilityList.Apply` assumes that `onStatusChange` calls `setIngredientStatus` and that a request for alternatives changes nothing.
- `IngredientAlternativesResponse` is imported from the shared package but not declared in `shared/src/types.ts`. The model always has a list of alternatives, possibly empty.
- IngredientSelection.SearchResults takes the list `useIngredients` loaded to be the catalog the backend searches. A failed initial load, which leaves that list empty, and the order in which concurrent searches resolve are not modelled.
- `console.log` and `console.error` output is not modelled.
- The async API hooks, routes, controllers, request validation and presentational components are outside this model.
