/** The ingredient picker (frontend/src/components/IngredientSelector.tsx): the list of
    selected names it hands to its parent and the search results it offers. */
module IngredientSelection {
  import opened Wrappers
  import opened Types
  import opened Strings
  import IngredientCatalog

  /** The list addIngredient hands on: the name appended when it is not already selected. */
  function WithAdded(selected: seq<string>, name: string): (r: seq<string>)
    ensures name in r
    ensures |r| == if name in selected then |selected| else |selected| + 1
    ensures r[..|selected|] == selected
    ensures NoDuplicates(selected) ==> NoDuplicates(r)
  {
    if name in selected then selected
    else
      NoDuplicatesSnocIf(selected, name);
      selected + [name]
  }

  lemma NoDuplicatesSnocIf(selected: seq<string>, name: string)
    requires name !in selected
    ensures NoDuplicates(selected) ==> NoDuplicates(selected + [name])
  {
    if NoDuplicates(selected) {
      NoDuplicatesSnoc(selected, name);
    }
  }

  /** Removing a name that was just added gives back the list it was added to. */
  lemma RemoveUndoesAdd(selected: seq<string>, name: string)
    requires name !in selected
    ensures RemoveAll(WithAdded(selected, name), name) == selected
  {
    RemoveAllAppend(selected, [name], name);
    RemoveAllAbsent(selected, name);
    assert RemoveAll([name], name) == [];
  }

  /** Removing a name keeps every other name in place: when the name occurs once,
      between `before` and `after`, the result is `before` followed by `after`. */
  lemma RemoveKeepsOthers(before: seq<string>, name: string, after: seq<string>)
    requires name !in before && name !in after
    ensures RemoveAll(before + [name] + after, name) == before + after
  {
    var front := before + [name];
    RemoveAllAppend(front, after, name);
    RemoveUndoesAdd(before, name);
    assert RemoveAll(front, name) == before;
    RemoveAllAbsent(after, name);
  }

  /** The search results whose name is not yet selected, in result order. */
  function FilteredIngredients(results: seq<Ingredient>, selected: seq<string>): (r: seq<Ingredient>)
    ensures |r| <= |results|
    ensures forall x :: x in r <==> x in results && x.name !in selected
  {
    if results == [] then []
    else
      assert results == [results[0]] + results[1..];
      (if results[0].name !in selected then [results[0]] else []) + FilteredIngredients(results[1..], selected)
  }

  /** Filtering a concatenation filters each part and keeps their order. */
  lemma {:induction false} FilteredAppend(a: seq<Ingredient>, b: seq<Ingredient>, selected: seq<string>)
    ensures FilteredIngredients(a + b, selected) == FilteredIngredients(a, selected) + FilteredIngredients(b, selected)
  {
    if a == [] {
      assert a + b == b;
    } else {
      var head := if a[0].name !in selected then [a[0]] else [];
      calc {
        FilteredIngredients(a + b, selected);
      == { assert (a + b)[0] == a[0]; assert (a + b)[1..] == a[1..] + b; }
        head + FilteredIngredients(a[1..] + b, selected);
      == { FilteredAppend(a[1..], b, selected); }
        head + (FilteredIngredients(a[1..], selected) + FilteredIngredients(b, selected));
      ==
        (head + FilteredIngredients(a[1..], selected)) + FilteredIngredients(b, selected);
      }
    }
  }

  /** A single result is kept exactly when its name is not selected. */
  lemma FilteredSingle(x: Ingredient, selected: seq<string>)
    ensures FilteredIngredients([x], selected) == if x.name !in selected then [x] else []
  {
    assert [x][1..] == [];
  }

  /** The search results the selector receives from useIngredients: a query that is
      blank after trimming gives the whole loaded list; any other query gives the
      catalog's search, which the local fallback after a failed request computes as well.
      `items` is the loaded list, taken to be the catalog the backend searches. */
  function SearchResults(items: seq<Ingredient>, query: string): (r: seq<Ingredient>)
    ensures |r| <= |items|
    ensures forall x :: x in r <==> x in items && (Trim(query) == "" || IngredientCatalog.NameMatches(x, query))
  {
    if Trim(query) == "" then items else IngredientCatalog.SearchIngredients(items, query)
  }

  /** Offered are exactly the loaded items whose name is not already selected and, unless
      the query is blank, matches the query ignoring case. */
  lemma OfferedItems(items: seq<Ingredient>, query: string, selected: seq<string>, x: Ingredient)
    ensures Trim(query) == "" ==>
      (x in FilteredIngredients(SearchResults(items, query), selected) <==> x in items && x.name !in selected)
    ensures Trim(query) != "" ==>
      (x in FilteredIngredients(SearchResults(items, query), selected) <==>
        x in items && IngredientCatalog.NameMatches(x, query) && x.name !in selected)
  {
  }

  class IngredientSelector {
    var query: string

    constructor()
      ensures query == ""
    {
      query := "";
    }

    /** addIngredient: hands on the extended list only when the name is new, and
        always clears the query. */
    method AddIngredient(ingredient: Ingredient, selected: seq<string>) returns (change: Option<seq<string>>)
      modifies this
      ensures query == ""
      ensures change.None? <==> ingredient.name in selected
      ensures change.Some? ==> change.value == WithAdded(selected, ingredient.name)
    {
      if ingredient.name !in selected {
        change := Some(selected + [ingredient.name]);
      } else {
        change := None;
      }
      query := "";
    }
  }
}
