/** The static ingredient catalog and its queries (backend/src/services/ingredientService.ts).
    The queries take the catalog as a parameter; `Catalog` is the list the service holds. */
module IngredientCatalog {
  import opened Wrappers
  import opened Types
  import opened Strings

  /** Proteins. */
  const Proteins: seq<Ingredient> := [
    Ingredient("chicken", "Chicken", "protein"),
    Ingredient("beef", "Beef", "protein"),
    Ingredient("pork", "Pork", "protein"),
    Ingredient("fish", "Fish", "protein"),
    Ingredient("tofu", "Tofu", "protein"),
    Ingredient("eggs", "Eggs", "protein")
  ]

  /** Vegetables. */
  const Vegetables: seq<Ingredient> := [
    Ingredient("onion", "Onion", "vegetable"),
    Ingredient("garlic", "Garlic", "vegetable"),
    Ingredient("tomato", "Tomato", "vegetable"),
    Ingredient("bell-pepper", "Bell Pepper", "vegetable"),
    Ingredient("carrot", "Carrot", "vegetable"),
    Ingredient("broccoli", "Broccoli", "vegetable"),
    Ingredient("spinach", "Spinach", "vegetable"),
    Ingredient("mushroom", "Mushroom", "vegetable")
  ]

  /** Grains and starches. */
  const Grains: seq<Ingredient> := [
    Ingredient("rice", "Rice", "grain"),
    Ingredient("pasta", "Pasta", "grain"),
    Ingredient("potato", "Potato", "grain"),
    Ingredient("bread", "Bread", "grain"),
    Ingredient("quinoa", "Quinoa", "grain")
  ]

  /** Dairy. */
  const Dairy: seq<Ingredient> := [
    Ingredient("cheese", "Cheese", "dairy"),
    Ingredient("milk", "Milk", "dairy"),
    Ingredient("yogurt", "Yogurt", "dairy"),
    Ingredient("butter", "Butter", "dairy")
  ]

  /** Herbs and spices. */
  const HerbsAndSpices: seq<Ingredient> := [
    Ingredient("basil", "Basil", "herb"),
    Ingredient("oregano", "Oregano", "herb"),
    Ingredient("thyme", "Thyme", "herb"),
    Ingredient("ginger", "Ginger", "spice"),
    Ingredient("cumin", "Cumin", "spice"),
    Ingredient("paprika", "Paprika", "spice")
  ]

  /** Pantry. */
  const Pantry: seq<Ingredient> := [
    Ingredient("olive-oil", "Olive Oil", "pantry"),
    Ingredient("soy-sauce", "Soy Sauce", "pantry"),
    Ingredient("vinegar", "Vinegar", "pantry"),
    Ingredient("flour", "Flour", "pantry"),
    Ingredient("sugar", "Sugar", "pantry"),
    Ingredient("salt", "Salt", "pantry")
  ]

  /** The catalog the service holds, in the order it lists the items. */
  const Catalog: seq<Ingredient> := Proteins + Vegetables + Grains + Dairy + HerbsAndSpices + Pantry

  /** A number that tells the catalog's ids apart: it combines an id's length with its
      first and last characters. Comparing 35 literal ids pairwise would ask the solver
      for about 600 string disequalities at once; mapping each id to a number and back to
      its position (Position below) proves the ids distinct with one fact per id. */
  function Signature(id: string): int {
    if id == [] then 0 else |id| * 1000000 + (id[0] as int) * 1000 + (id[|id| - 1] as int)
  }

  /** Each catalog id's position in the catalog, by signature (-1 for any other number).
      That it sends each id's signature back to the id's position is what makes the ids
      pairwise distinct. */
  function Position(signature: int): int {
    match signature
    case 7099110 => 0
    case 4098102 => 1
    case 4112107 => 2
    case 4102104 => 3
    case 4116117 => 4
    case 4101115 => 5
    case 5111110 => 6
    case 6103099 => 7
    case 6116111 => 8
    case 11098114 => 9
    case 6099116 => 10
    case 8098105 => 11
    case 7115104 => 12
    case 8109109 => 13
    case 4114101 => 14
    case 5112097 => 15
    case 6112111 => 16
    case 5098100 => 17
    case 6113097 => 18
    case 6099101 => 19
    case 4109107 => 20
    case 6121116 => 21
    case 6098114 => 22
    case 5098108 => 23
    case 7111111 => 24
    case 5116101 => 25
    case 6103114 => 26
    case 5099110 => 27
    case 7112097 => 28
    case 9111108 => 29
    case 9115101 => 30
    case 7118114 => 31
    case 5102114 => 32
    case 5115114 => 33
    case 4115116 => 34
    case _ => -1
  }

  lemma ProteinsPositions()
    ensures forall i :: 0 <= i < |Proteins| ==> Position(Signature(Proteins[i].id)) == i
  {
    assert Signature(Proteins[0].id) == 7099110;
    assert Signature(Proteins[1].id) == 4098102;
    assert Signature(Proteins[2].id) == 4112107;
    assert Signature(Proteins[3].id) == 4102104;
    assert Signature(Proteins[4].id) == 4116117;
    assert Signature(Proteins[5].id) == 4101115;
  }

  lemma VegetablesPositions()
    ensures forall i :: 0 <= i < |Vegetables| ==> Position(Signature(Vegetables[i].id)) == 6 + i
  {
    assert Signature(Vegetables[0].id) == 5111110;
    assert Signature(Vegetables[1].id) == 6103099;
    assert Signature(Vegetables[2].id) == 6116111;
    assert Signature(Vegetables[3].id) == 11098114;
    assert Signature(Vegetables[4].id) == 6099116;
    assert Signature(Vegetables[5].id) == 8098105;
    assert Signature(Vegetables[6].id) == 7115104;
    assert Signature(Vegetables[7].id) == 8109109;
  }

  lemma GrainsPositions()
    ensures forall i :: 0 <= i < |Grains| ==> Position(Signature(Grains[i].id)) == 14 + i
  {
    assert Signature(Grains[0].id) == 4114101;
    assert Signature(Grains[1].id) == 5112097;
    assert Signature(Grains[2].id) == 6112111;
    assert Signature(Grains[3].id) == 5098100;
    assert Signature(Grains[4].id) == 6113097;
  }

  lemma DairyPositions()
    ensures forall i :: 0 <= i < |Dairy| ==> Position(Signature(Dairy[i].id)) == 19 + i
  {
    assert Signature(Dairy[0].id) == 6099101;
    assert Signature(Dairy[1].id) == 4109107;
    assert Signature(Dairy[2].id) == 6121116;
    assert Signature(Dairy[3].id) == 6098114;
  }

  lemma HerbsAndSpicesPositions()
    ensures forall i :: 0 <= i < |HerbsAndSpices| ==> Position(Signature(HerbsAndSpices[i].id)) == 23 + i
  {
    assert Signature(HerbsAndSpices[0].id) == 5098108;
    assert Signature(HerbsAndSpices[1].id) == 7111111;
    assert Signature(HerbsAndSpices[2].id) == 5116101;
    assert Signature(HerbsAndSpices[3].id) == 6103114;
    assert Signature(HerbsAndSpices[4].id) == 5099110;
    assert Signature(HerbsAndSpices[5].id) == 7112097;
  }

  lemma PantryPositions()
    ensures forall i :: 0 <= i < |Pantry| ==> Position(Signature(Pantry[i].id)) == 29 + i
  {
    assert Signature(Pantry[0].id) == 9111108;
    assert Signature(Pantry[1].id) == 9115101;
    assert Signature(Pantry[2].id) == 7118114;
    assert Signature(Pantry[3].id) == 5102114;
    assert Signature(Pantry[4].id) == 5115114;
    assert Signature(Pantry[5].id) == 4115116;
  }

  /** No two items share an id. */
  predicate DistinctIds(items: seq<Ingredient>) {
    forall i, j :: 0 <= i < j < |items| ==> items[i].id != items[j].id
  }

  /** Position sends every catalog id's signature back to where the id sits. */
  lemma CatalogPositions()
    ensures |Catalog| == 35
    ensures forall i :: 0 <= i < |Catalog| ==> Position(Signature(Catalog[i].id)) == i
  {
    ProteinsPositions(); VegetablesPositions(); GrainsPositions();
    DairyPositions(); HerbsAndSpicesPositions(); PantryPositions();
    forall i | 0 <= i < |Catalog|
      ensures Position(Signature(Catalog[i].id)) == i
    {
      if i < 6 { assert Catalog[i] == Proteins[i]; }
      else if i < 14 { assert Catalog[i] == Vegetables[i - 6]; }
      else if i < 19 { assert Catalog[i] == Grains[i - 14]; }
      else if i < 23 { assert Catalog[i] == Dairy[i - 19]; }
      else if i < 29 { assert Catalog[i] == HerbsAndSpices[i - 23]; }
      else { assert Catalog[i] == Pantry[i - 29]; }
    }
  }

  /** getAllIngredients: the fixed catalog of 35 items with pairwise distinct ids. */
  function GetAllIngredients(): (r: seq<Ingredient>)
    ensures |r| == 35
    ensures DistinctIds(r)
  {
    CatalogPositions();
    assert forall i, j :: 0 <= i < j < |Catalog| ==> Position(Signature(Catalog[i].id)) != Position(Signature(Catalog[j].id));
    Catalog
  }

  // ---------------------------------------------------------------------------
  // getIngredientsByCategory
  // ---------------------------------------------------------------------------

  /** The dictionary's keys in insertion order: each category where it first appears. */
  function CategoryKeys(items: seq<Ingredient>): seq<string>
  {
    if items == [] then []
    else
      var keys := CategoryKeys(items[..|items| - 1]);
      var last := items[|items| - 1];
      if last.category in keys then keys else keys + [last.category]
  }

  /** The group of category `c`: its items, in catalog order. */
  function Members(items: seq<Ingredient>, c: string): seq<Ingredient>
  {
    if items == [] then []
    else
      var last := items[|items| - 1];
      Members(items[..|items| - 1], c) + (if last.category == c then [last] else [])
  }

  /** The keys are exactly the categories that occur. */
  lemma {:induction false} CategoryKeysExact(items: seq<Ingredient>, c: string)
    ensures c in CategoryKeys(items) <==> exists i :: 0 <= i < |items| && items[i].category == c
  {
    if items != [] {
      var prefix := items[..|items| - 1];
      CategoryKeysExact(prefix, c);
      assert forall i :: 0 <= i < |prefix| ==> prefix[i] == items[i];
    }
  }

  /** A group holds exactly the items of its category. */
  lemma {:induction false} MembersExact(items: seq<Ingredient>, c: string, x: Ingredient)
    ensures x in Members(items, c) <==> x in items && x.category == c
  {
    if items != [] {
      var prefix := items[..|items| - 1];
      MembersExact(prefix, c, x);
      assert items == prefix + [items[|items| - 1]];
    }
  }

  /** A category that is not yet a key has no items. */
  lemma {:induction false} MembersOfAbsentKey(items: seq<Ingredient>, c: string)
    requires c !in CategoryKeys(items)
    ensures Members(items, c) == []
  {
    if items != [] {
      MembersOfAbsentKey(items[..|items| - 1], c);
    }
  }

  /** There is one group per distinct category: no key is repeated. */
  lemma {:induction false} CategoryKeysDistinct(items: seq<Ingredient>)
    ensures NoDuplicates(CategoryKeys(items))
  {
    if items != [] {
      var prefix := items[..|items| - 1];
      CategoryKeysDistinct(prefix);
      var keys := CategoryKeys(prefix);
      var c := items[|items| - 1].category;
      if c !in keys {
        forall i, j | 0 <= i < j < |keys + [c]| ensures (keys + [c])[i] != (keys + [c])[j] {
          assert (keys + [c])[i] == keys[i];
          if j == |keys| {
            assert keys[i] in keys;
          } else {
            assert (keys + [c])[j] == keys[j];
          }
        }
      }
    }
  }

  /** The groups getIngredientsByCategory returns, as values. */
  function Grouped(items: seq<Ingredient>): seq<IngredientCategory> {
    var keys := CategoryKeys(items);
    seq(|keys|, j requires 0 <= j < |keys| => IngredientCategory(FormatCategoryName(keys[j]), Members(items, keys[j])))
  }

  /** Every ingredient sits in the group of its own category and in no other: the groups
      are one per distinct category, and a group holds exactly that category's items. */
  lemma EachInExactlyOneGroup(items: seq<Ingredient>, x: Ingredient, j: nat)
    requires x in items && j < |CategoryKeys(items)|
    ensures x in Grouped(items)[j].ingredients <==> CategoryKeys(items)[j] == x.category
    ensures x.category in CategoryKeys(items)
  {
    MembersExact(items, CategoryKeys(items)[j], x);
    var i :| 0 <= i < |items| && items[i] == x;
    CategoryKeysExact(items, x.category);
  }

  /** A group keeps catalog order: an item added later to the catalog lands at the end of
      its group, after the earlier ones. */
  lemma GroupKeepsOrder(items: seq<Ingredient>, x: Ingredient, c: string)
    ensures Members(items + [x], c) == Members(items, c) + (if x.category == c then [x] else [])
  {
    assert (items + [x])[..|items + [x]| - 1] == items;
  }

  /** One more item of the list: its category is added to the keys if new, and the item
      is appended to its own group only. */
  lemma PrefixStep(items: seq<Ingredient>, i: nat)
    requires i < |items|
    ensures var keys := CategoryKeys(items[..i]);
      CategoryKeys(items[..i + 1]) == if items[i].category in keys then keys else keys + [items[i].category]
    ensures forall c :: Members(items[..i + 1], c) == Members(items[..i], c) + (if items[i].category == c then [items[i]] else [])
  {
    assert items[..i + 1] == items[..i] + [items[i]];
    forall c ensures Members(items[..i + 1], c) == Members(items[..i], c) + (if items[i].category == c then [items[i]] else []) {
      GroupKeepsOrder(items[..i], items[i], c);
    }
    assert items[..i + 1][..i] == items[..i];
  }

  /** getIngredientsByCategory: fill the dictionary in one pass, creating a group on a
      category's first item and pushing onto it, then list the groups in key order. */
  method GetIngredientsByCategory(items: seq<Ingredient>) returns (groups: seq<IngredientCategory>)
    ensures groups == Grouped(items)
  {
    var categories: map<string, seq<Ingredient>> := map[];
    var keys: seq<string> := [];
    for i := 0 to |items|
      invariant keys == CategoryKeys(items[..i])
      invariant forall c :: c in categories <==> c in keys
      invariant forall c :: c in categories ==> categories[c] == Members(items[..i], c)
    {
      var ingredient := items[i];
      PrefixStep(items, i);
      if ingredient.category !in categories {
        MembersOfAbsentKey(items[..i], ingredient.category);
        categories := categories[ingredient.category := []];
        keys := keys + [ingredient.category];
      }
      categories := categories[ingredient.category := categories[ingredient.category] + [ingredient]];
    }
    assert items[..|items|] == items;
    groups := seq(|keys|, j requires 0 <= j < |keys| => IngredientCategory(FormatCategoryName(keys[j]), categories[keys[j]]));
  }

  // ---------------------------------------------------------------------------
  // formatCategoryName
  // ---------------------------------------------------------------------------

  function Label(category: string): Option<string> {
    if category == "protein" then Some("Proteins")
    else if category == "vegetable" then Some("Vegetables")
    else if category == "grain" then Some("Grains & Starches")
    else if category == "dairy" then Some("Dairy")
    else if category == "herb" then Some("Herbs")
    else if category == "spice" then Some("Spices")
    else if category == "pantry" then Some("Pantry Items")
    else None
  }

  /** The fixed label of a known category; otherwise the name with its first character
      upper-cased (the empty name stays empty). */
  function FormatCategoryName(category: string): (r: string)
    ensures Label(category).Some? ==> r == Label(category).value
    ensures Label(category).None? ==> |r| == |category|
    ensures Label(category).None? && category != [] ==> r[1..] == category[1..]
    ensures Label(category).None? && category != [] ==> r[0] == UpperChar(category[0])
  {
    match Label(category)
    case Some(text) => text
    case None => if category == [] then [] else [UpperChar(category[0])] + category[1..]
  }

  /** Every known key starts with a lower-case letter. */
  lemma LabelKeysLowerCase(category: string)
    requires Label(category).Some?
    ensures category != [] && 'a' <= category[0] <= 'z'
  {
  }

  /** Every label starts with an upper-case letter. */
  lemma LabelsCapitalised(category: string)
    requires Label(category).Some?
    ensures Label(category).value != [] && 'A' <= Label(category).value[0] <= 'Z'
  {
  }

  /** Formatting a formatted name changes nothing: labels and upper-cased names are never
      themselves known keys, and their first character is already upper case. */
  lemma FormatIdempotent(category: string)
    ensures FormatCategoryName(FormatCategoryName(category)) == FormatCategoryName(category)
  {
    var r := FormatCategoryName(category);
    if r != [] {
      assert !('a' <= r[0] <= 'z') by {
        if Label(category).Some? {
          LabelsCapitalised(category);
        } else {
          assert r[0] == UpperChar(category[0]);
        }
      }
      assert Label(r).None? by {
        if Label(r).Some? {
          LabelKeysLowerCase(r);
        }
      }
      assert UpperChar(r[0]) == r[0];
      assert [r[0]] + r[1..] == r;
    }
  }

  // ---------------------------------------------------------------------------
  // searchIngredients, getIngredientById
  // ---------------------------------------------------------------------------

  predicate NameMatches(ingredient: Ingredient, query: string) {
    Contains(Lower(ingredient.name), Lower(query))
  }

  /** searchIngredients: the items whose lower-cased name contains the lower-cased query,
      in catalog order. */
  function SearchIngredients(items: seq<Ingredient>, query: string): (r: seq<Ingredient>)
    ensures |r| <= |items|
    ensures forall x :: x in r <==> x in items && NameMatches(x, query)
  {
    if items == [] then []
    else
      var rest := SearchIngredients(items[1..], query);
      assert items == [items[0]] + items[1..];
      if NameMatches(items[0], query) then [items[0]] + rest else rest
  }

  /** Searching a concatenation searches each part and keeps their order, so together
      with SearchSingle the result is the matching items in catalog order. */
  lemma {:induction false} SearchAppend(a: seq<Ingredient>, b: seq<Ingredient>, query: string)
    ensures SearchIngredients(a + b, query) == SearchIngredients(a, query) + SearchIngredients(b, query)
  {
    if a == [] {
      assert a + b == b;
    } else {
      var head := if NameMatches(a[0], query) then [a[0]] else [];
      calc {
        SearchIngredients(a + b, query);
      == { assert (a + b)[0] == a[0]; assert (a + b)[1..] == a[1..] + b; }
        head + SearchIngredients(a[1..] + b, query);
      == { SearchAppend(a[1..], b, query); }
        head + (SearchIngredients(a[1..], query) + SearchIngredients(b, query));
      ==
        (head + SearchIngredients(a[1..], query)) + SearchIngredients(b, query);
      }
    }
  }

  /** A single item is kept exactly when its name matches. */
  lemma SearchSingle(x: Ingredient, query: string)
    ensures SearchIngredients([x], query) == if NameMatches(x, query) then [x] else []
  {
    assert [x][1..] == [];
  }

  /** The empty query matches every item. */
  lemma {:induction false} SearchEmptyQuery(items: seq<Ingredient>)
    ensures SearchIngredients(items, "") == items
  {
    if items != [] {
      ContainsEmpty(Lower(items[0].name));
      SearchEmptyQuery(items[1..]);
    }
  }

  /** Matching ignores ASCII case on both sides. */
  lemma SearchIgnoresCase(items: seq<Ingredient>, query: string)
    ensures SearchIngredients(items, Lower(query)) == SearchIngredients(items, query)
  {
    LowerIdempotent(query);
  }

  lemma LowerIdempotent(s: string)
    ensures Lower(Lower(s)) == Lower(s)
  {
  }

  /** getIngredientById: the first item with that exact id, or none. */
  function GetIngredientById(items: seq<Ingredient>, id: string): (r: Option<Ingredient>)
    ensures r.Some? <==> exists i :: 0 <= i < |items| && items[i].id == id
    ensures r.Some? ==> r.value in items && r.value.id == id
  {
    if items == [] then None
    else if items[0].id == id then Some(items[0])
    else
      var rest := GetIngredientById(items[1..], id);
      assert forall i :: 0 < i < |items| ==> items[i] == items[1..][i - 1];
      rest
  }

  /** With distinct ids, the item found is the one at the id's position. */
  lemma GetIngredientByIdUnique(items: seq<Ingredient>, i: nat)
    requires DistinctIds(items) && i < |items|
    ensures GetIngredientById(items, items[i].id) == Some(items[i])
  {
    if i > 0 {
      assert DistinctIds(items[1..]) by {
        forall a, b | 0 <= a < b < |items[1..]| ensures items[1..][a].id != items[1..][b].id {
          assert items[1..][a] == items[a + 1] && items[1..][b] == items[b + 1];
        }
      }
      GetIngredientByIdUnique(items[1..], i - 1);
    }
  }
}
