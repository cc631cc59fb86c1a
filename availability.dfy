/** The ingredient-availability tracker (frontend/src/hooks/useIngredientAvailability.ts):
    an insertion-ordered map from the current name of each recipe ingredient to its
    availability entry. It is built from the recipe's ingredients and the user's
    selection, changed by status updates and substitutions, and restored by a reset. */
module Availability {
  import opened Wrappers
  import opened Types
  import opened Strings

  datatype Status = Available | Unavailable | Unknown

  /** One ingredient's state: `ingredient` is its current name, `originalIngredient` the
      recipe's name for it, `substitute` the name it was replaced by, if any. */
  datatype Entry = Entry(
    ingredient: string,
    originalIngredient: string,
    status: Status,
    isUserSelected: bool,
    substitute: Option<string>)

  /** A JavaScript Map: its keys in insertion order, and the entry under each key. */
  datatype Tracker = Tracker(order: seq<string>, entries: map<string, Entry>)

  /** The order lists every key exactly once, and each entry is filed under its own name. */
  ghost predicate Valid(t: Tracker) {
    && NoDuplicates(t.order)
    && (forall k :: k in t.order <==> k in t.entries)
    && (forall k :: k in t.entries ==> t.entries[k].ingredient == k)
  }

  /** Map.set: a new key is appended to the order, an existing key keeps its place. */
  function Put(t: Tracker, k: string, e: Entry): Tracker {
    Tracker(if k in t.entries then t.order else t.order + [k], t.entries[k := e])
  }

  /** Map.delete. */
  function Delete(t: Tracker, k: string): Tracker {
    Tracker(RemoveAll(t.order, k), t.entries - {k})
  }

  lemma PutValid(t: Tracker, k: string, e: Entry)
    requires Valid(t) && e.ingredient == k
    ensures Valid(Put(t, k, e))
  {
    if k !in t.entries {
      NoDuplicatesSnoc(t.order, k);
    }
  }

  lemma DeleteValid(t: Tracker, k: string)
    requires Valid(t)
    ensures Valid(Delete(t, k))
  {
    RemoveAllNoDuplicates(t.order, k);
  }

  // ---------------------------------------------------------------------------
  // The initial map
  // ---------------------------------------------------------------------------

  /** Some name the user selected equals the ingredient once both are lower-cased. */
  predicate SelectedByUser(selected: seq<string>, ingredient: string) {
    exists i :: 0 <= i < |selected| && Lower(selected[i]) == Lower(ingredient)
  }

  /** The entry the construction stores for one recipe ingredient. */
  function InitialEntry(ingredient: string, selected: seq<string>): Entry {
    var chosen := SelectedByUser(selected, ingredient);
    Entry(ingredient, ingredient, if chosen then Available else Unknown, chosen, None)
  }

  /** The initial map: one Map.set per recipe ingredient, in the recipe's order. */
  function Initial(recipeIngredients: seq<string>, selected: seq<string>): Tracker {
    if recipeIngredients == [] then Tracker([], map[])
    else
      var n := |recipeIngredients| - 1;
      Put(Initial(recipeIngredients[..n], selected), recipeIngredients[n], InitialEntry(recipeIngredients[n], selected))
  }

  /** The initial map is well formed, its keys are exactly the recipe's ingredient names,
      and each key holds the construction's entry for that name. */
  lemma {:induction false} InitialShape(recipeIngredients: seq<string>, selected: seq<string>)
    ensures Valid(Initial(recipeIngredients, selected))
    ensures forall k :: k in Initial(recipeIngredients, selected).entries <==> k in recipeIngredients
    ensures forall k :: k in Initial(recipeIngredients, selected).entries ==>
      Initial(recipeIngredients, selected).entries[k] == InitialEntry(k, selected)
  {
    if recipeIngredients != [] {
      var n := |recipeIngredients| - 1;
      InitialShape(recipeIngredients[..n], selected);
      PutValid(Initial(recipeIngredients[..n], selected), recipeIngredients[n], InitialEntry(recipeIngredients[n], selected));
      assert recipeIngredients == recipeIngredients[..n] + [recipeIngredients[n]];
    }
  }

  /** After construction every recipe ingredient has an entry that names it as both its
      current and its original ingredient and has no substitute; the entry is available
      and marked user-selected exactly when some selected name equals it ignoring case,
      and its status is unknown otherwise. */
  lemma InitialEntries(recipeIngredients: seq<string>, selected: seq<string>, k: string)
    requires k in recipeIngredients
    ensures var t := Initial(recipeIngredients, selected);
      && k in t.entries
      && t.entries[k].ingredient == k
      && t.entries[k].originalIngredient == k
      && t.entries[k].substitute == None
      && t.entries[k].isUserSelected == SelectedByUser(selected, k)
      && (t.entries[k].status == Available <==> SelectedByUser(selected, k))
      && (t.entries[k].status == Unknown <==> !SelectedByUser(selected, k))
  {
    InitialShape(recipeIngredients, selected);
  }

  /** When no name repeats, the map lists the ingredients in the recipe's order. */
  lemma {:induction false} InitialOrder(recipeIngredients: seq<string>, selected: seq<string>)
    requires NoDuplicates(recipeIngredients)
    ensures Initial(recipeIngredients, selected).order == recipeIngredients
  {
    if recipeIngredients != [] {
      var n := |recipeIngredients| - 1;
      var prefix := recipeIngredients[..n];
      assert NoDuplicates(prefix) by {
        forall i, j | 0 <= i < j < |prefix| ensures prefix[i] != prefix[j] {
          assert prefix[i] == recipeIngredients[i] && prefix[j] == recipeIngredients[j];
        }
      }
      InitialOrder(prefix, selected);
      InitialShape(prefix, selected);
      assert recipeIngredients[n] !in prefix by {
        forall i | 0 <= i < |prefix| ensures prefix[i] != recipeIngredients[n] {
          assert prefix[i] == recipeIngredients[i];
        }
      }
      assert recipeIngredients == prefix + [recipeIngredients[n]];
    }
  }

  /** Builds the initial map with one Map.set per recipe ingredient. */
  method BuildInitialMap(recipeIngredients: seq<string>, selected: seq<string>)
    returns (order: seq<string>, entries: map<string, Entry>)
    ensures Tracker(order, entries) == Initial(recipeIngredients, selected)
  {
    order := [];
    entries := map[];
    for i := 0 to |recipeIngredients|
      invariant Tracker(order, entries) == Initial(recipeIngredients[..i], selected)
    {
      var ingredient := recipeIngredients[i];
      var isUserSelected := SelectedByUser(selected, ingredient);
      var entry := Entry(ingredient, ingredient, if isUserSelected then Available else Unknown, isUserSelected, None);
      if ingredient !in entries {
        order := order + [ingredient];
      }
      entries := entries[ingredient := entry];
      assert recipeIngredients[..i + 1][..i] == recipeIngredients[..i];
    }
    assert recipeIngredients[..|recipeIngredients|] == recipeIngredients;
  }

  // ---------------------------------------------------------------------------
  // setIngredientStatus and substituteIngredient
  // ---------------------------------------------------------------------------

  /** The map setIngredientStatus installs: a copy with the status of `k` replaced, when
      `k` has an entry. */
  function SetStatus(t: Tracker, k: string, status: Status): Tracker {
    if k in t.entries then Put(t, k, t.entries[k].(status := status)) else t
  }

  /** A status update changes the status of entry `k` and nothing else: the keys, their
      order, every other entry and every other field of `k` stay as they were; without
      an entry for `k` the map is unchanged. */
  lemma SetStatusEffect(t: Tracker, k: string, status: Status)
    requires Valid(t)
    ensures var r := SetStatus(t, k, status);
      && Valid(r)
      && r.order == t.order
      && r.entries.Keys == t.entries.Keys
      && (forall j :: j in t.entries && j != k ==> r.entries[j] == t.entries[j])
      && (k in t.entries ==> r.entries[k].status == status && r.entries[k].(status := t.entries[k].status) == t.entries[k])
      && (k !in t.entries ==> r == t)
  {
    if k in t.entries {
      PutValid(t, k, t.entries[k].(status := status));
    }
  }

  /** The entry a substitution stores under the new name. */
  function SubstitutedEntry(current: Entry, substitute: string): Entry {
    Entry(substitute, current.originalIngredient, Available, current.isUserSelected, Some(substitute))
  }

  /** The map substituteIngredient installs: when `original` has an entry, that key is
      deleted and an available entry for `substitute` is set, carrying the old entry's
      original name and user-selected flag. */
  function Substitute(t: Tracker, original: string, substitute: string): Tracker {
    if original in t.entries then Put(Delete(t, original), substitute, SubstitutedEntry(t.entries[original], substitute))
    else t
  }

  /** A substitution removes the old key and files under the new name an available entry
      whose substitute is the new name and whose original name and user-selected flag are
      the old entry's. A name that already had an entry is overwritten in place; a new
      name goes to the end. Other entries are untouched, and without an entry for
      `original` nothing changes. */
  lemma SubstituteEffect(t: Tracker, original: string, substitute: string)
    requires Valid(t)
    ensures var r := Substitute(t, original, substitute);
      && Valid(r)
      && (original !in t.entries ==> r == t)
      && (original in t.entries ==>
        && r.entries.Keys == t.entries.Keys - {original} + {substitute}
        && r.entries[substitute] == Entry(substitute, t.entries[original].originalIngredient, Available,
                                          t.entries[original].isUserSelected, Some(substitute))
        && (forall j :: j in t.entries && j != original && j != substitute ==> r.entries[j] == t.entries[j])
        && r.order == RemoveAll(t.order, original) + (if substitute != original && substitute in t.entries then [] else [substitute]))
  {
    if original in t.entries {
      DeleteValid(t, original);
      PutValid(Delete(t, original), substitute, SubstitutedEntry(t.entries[original], substitute));
    }
  }

  /** Deleting a key that was just added gives back the map it was added to. */
  lemma DeleteAfterPut(t: Tracker, k: string, e: Entry)
    requires k !in t.entries && k !in t.order
    ensures Delete(Put(t, k, e), k) == t
  {
    RemoveAllAppend(t.order, [k], k);
    RemoveAllAbsent(t.order, k);
    assert RemoveAll([k], k) == [];
    assert (t.entries[k := e]) - {k} == t.entries;
  }

  /** Repeating a substitution changes nothing more: there is still one entry for the new
      name, and it still carries the first original name. */
  lemma SubstituteTwice(t: Tracker, original: string, substitute: string)
    requires Valid(t)
    ensures Substitute(Substitute(t, original, substitute), original, substitute) == Substitute(t, original, substitute)
  {
    if original in t.entries {
      var d := Delete(t, original);
      var e := SubstitutedEntry(t.entries[original], substitute);
      var r := Put(d, substitute, e);
      assert Substitute(t, original, substitute) == r;
      if original == substitute {
        assert original !in RemoveAll(t.order, original);
        DeleteAfterPut(d, original, e);
        assert SubstitutedEntry(r.entries[original], substitute) == e;
      } else {
        assert original !in r.entries;
      }
    }
  }

  // ---------------------------------------------------------------------------
  // What every reachable map keeps
  // ---------------------------------------------------------------------------

  /** Every entry descends from a recipe ingredient, and its user-selected flag is the
      selection test on that original name. */
  ghost predicate Tracks(t: Tracker, recipeIngredients: seq<string>, selected: seq<string>) {
    && Valid(t)
    && forall k :: k in t.entries ==>
      && t.entries[k].originalIngredient in recipeIngredients
      && t.entries[k].isUserSelected == SelectedByUser(selected, t.entries[k].originalIngredient)
  }

  lemma InitialTracks(recipeIngredients: seq<string>, selected: seq<string>)
    ensures Tracks(Initial(recipeIngredients, selected), recipeIngredients, selected)
  {
    InitialShape(recipeIngredients, selected);
  }

  lemma SetStatusTracks(t: Tracker, recipeIngredients: seq<string>, selected: seq<string>, k: string, status: Status)
    requires Tracks(t, recipeIngredients, selected)
    ensures Tracks(SetStatus(t, k, status), recipeIngredients, selected)
  {
    SetStatusEffect(t, k, status);
  }

  lemma SubstituteTracks(t: Tracker, recipeIngredients: seq<string>, selected: seq<string>, original: string, substitute: string)
    requires Tracks(t, recipeIngredients, selected)
    ensures Tracks(Substitute(t, original, substitute), recipeIngredients, selected)
  {
    SubstituteEffect(t, original, substitute);
  }

  // ---------------------------------------------------------------------------
  // Derived lists
  // ---------------------------------------------------------------------------

  /** Array.from(map.values()): the entries in key order. */
  function IngredientsList(t: Tracker): seq<Entry>
    requires Valid(t)
  {
    seq(|t.order|, i requires 0 <= i < |t.order| => t.entries[t.order[i]])
  }

  /** The entries with the given status, in list order. */
  function WithStatus(list: seq<Entry>, status: Status): (r: seq<Entry>)
    ensures |r| <= |list|
    ensures forall e :: e in r <==> e in list && e.status == status
  {
    if list == [] then []
    else
      assert list == [list[0]] + list[1..];
      (if list[0].status == status then [list[0]] else []) + WithStatus(list[1..], status)
  }

  /** Whether an entry counts as substituted: it has a non-empty substitute that differs
      from its original name. */
  predicate IsSubstituted(e: Entry) {
    TruthyText(e.substitute) && e.substitute.value != e.originalIngredient
  }

  /** The substituted entries, in list order. */
  function SubstitutedIngredients(list: seq<Entry>): (r: seq<Entry>)
    ensures |r| <= |list|
    ensures forall e :: e in r <==> e in list && IsSubstituted(e)
  {
    if list == [] then []
    else
      assert list == [list[0]] + list[1..];
      (if IsSubstituted(list[0]) then [list[0]] else []) + SubstitutedIngredients(list[1..])
  }

  /** Filtering a concatenation by status filters each part and keeps their order. */
  lemma {:induction false} WithStatusAppend(a: seq<Entry>, b: seq<Entry>, status: Status)
    ensures WithStatus(a + b, status) == WithStatus(a, status) + WithStatus(b, status)
  {
    if a == [] {
      assert a + b == b;
    } else {
      var head := if a[0].status == status then [a[0]] else [];
      calc {
        WithStatus(a + b, status);
      == { assert (a + b)[0] == a[0]; assert (a + b)[1..] == a[1..] + b; }
        head + WithStatus(a[1..] + b, status);
      == { WithStatusAppend(a[1..], b, status); }
        head + (WithStatus(a[1..], status) + WithStatus(b, status));
      ==
        (head + WithStatus(a[1..], status)) + WithStatus(b, status);
      }
    }
  }

  /** A single entry is kept exactly when it has the status. */
  lemma WithStatusSingle(e: Entry, status: Status)
    ensures WithStatus([e], status) == if e.status == status then [e] else []
  {
    assert [e][1..] == [];
  }

  /** The substituted entries of a concatenation are those of each part, in order. */
  lemma {:induction false} SubstitutedAppend(a: seq<Entry>, b: seq<Entry>)
    ensures SubstitutedIngredients(a + b) == SubstitutedIngredients(a) + SubstitutedIngredients(b)
  {
    if a == [] {
      assert a + b == b;
    } else {
      var head := if IsSubstituted(a[0]) then [a[0]] else [];
      calc {
        SubstitutedIngredients(a + b);
      == { assert (a + b)[0] == a[0]; assert (a + b)[1..] == a[1..] + b; }
        head + SubstitutedIngredients(a[1..] + b);
      == { SubstitutedAppend(a[1..], b); }
        head + (SubstitutedIngredients(a[1..]) + SubstitutedIngredients(b));
      ==
        (head + SubstitutedIngredients(a[1..])) + SubstitutedIngredients(b);
      }
    }
  }

  /** A single entry is kept exactly when it is substituted. */
  lemma SubstitutedSingle(e: Entry)
    ensures SubstitutedIngredients([e]) == if IsSubstituted(e) then [e] else []
  {
    assert [e][1..] == [];
  }

  /** The current names, in list order. */
  function FinalIngredientsList(list: seq<Entry>): seq<string> {
    seq(|list|, i requires 0 <= i < |list| => list[i].ingredient)
  }

  /** The available, unavailable and unknown lists split the list between them. */
  lemma {:induction false} StatusPartition(list: seq<Entry>)
    ensures |WithStatus(list, Available)| + |WithStatus(list, Unavailable)| + |WithStatus(list, Unknown)| == |list|
  {
    if list != [] {
      StatusPartition(list[1..]);
    }
  }

  /** The final ingredient list is the map's keys in their order, and the entries list
      holds exactly the map's entries. */
  lemma FinalListIsKeyOrder(t: Tracker)
    requires Valid(t)
    ensures FinalIngredientsList(IngredientsList(t)) == t.order
    ensures forall e :: e in IngredientsList(t) <==> exists k :: k in t.entries && t.entries[k] == e
  {
    var list := IngredientsList(t);
    forall e | (exists k :: k in t.entries && t.entries[k] == e) ensures e in list {
      var k :| k in t.entries && t.entries[k] == e;
      var i :| 0 <= i < |t.order| && t.order[i] == k;
      assert list[i] == e;
    }
  }

  /** A substitution marks the entry substituted exactly when the new name is non-empty
      and differs from the original recipe name, so substituting back to the original
      name does not count. */
  lemma SubstitutionShows(t: Tracker, original: string, substitute: string)
    requires Valid(t) && original in t.entries
    ensures var r := Substitute(t, original, substitute);
      substitute in r.entries
      && (IsSubstituted(r.entries[substitute]) <==> substitute != "" && substitute != t.entries[original].originalIngredient)
  {
    SubstituteEffect(t, original, substitute);
  }

  // ---------------------------------------------------------------------------
  // The hook's state
  // ---------------------------------------------------------------------------

  /** The hook for one recipe: the memoised initial map and the current map. */
  class IngredientAvailability {
    const recipeIngredients: seq<string>
    const userSelectedIngredients: seq<string>
    const initial: Tracker
    var order: seq<string>
    var entries: map<string, Entry>

    function State(): Tracker
      reads this
    {
      Tracker(order, entries)
    }

    ghost predicate Valid()
      reads this
    {
      && initial == Initial(recipeIngredients, userSelectedIngredients)
      && Tracks(State(), recipeIngredients, userSelectedIngredients)
    }

    constructor(recipeIngredients: seq<string>, userSelectedIngredients: seq<string>)
      ensures Valid()
      ensures this.recipeIngredients == recipeIngredients
      ensures this.userSelectedIngredients == userSelectedIngredients
      ensures State() == Initial(recipeIngredients, userSelectedIngredients)
    {
      this.recipeIngredients := recipeIngredients;
      this.userSelectedIngredients := userSelectedIngredients;
      var o, e := BuildInitialMap(recipeIngredients, userSelectedIngredients);
      initial := Tracker(o, e);
      order := o;
      entries := e;
      new;
      InitialTracks(recipeIngredients, userSelectedIngredients);
    }

    method SetIngredientStatus(ingredient: string, status: Status)
      requires Valid()
      modifies this
      ensures Valid()
      ensures State() == SetStatus(old(State()), ingredient, status)
    {
      if ingredient in entries {
        entries := entries[ingredient := entries[ingredient].(status := status)];
      }
      SetStatusTracks(old(State()), recipeIngredients, userSelectedIngredients, ingredient, status);
    }

    method SubstituteIngredient(originalIngredient: string, substituteIngredient: string)
      requires Valid()
      modifies this
      ensures Valid()
      ensures State() == Substitute(old(State()), originalIngredient, substituteIngredient)
    {
      if originalIngredient in entries {
        var current := entries[originalIngredient];
        entries := entries - {originalIngredient};
        order := RemoveAll(order, originalIngredient);
        if substituteIngredient !in entries {
          order := order + [substituteIngredient];
        }
        entries := entries[substituteIngredient := Entry(substituteIngredient, current.originalIngredient, Available,
                                                         current.isUserSelected, Some(substituteIngredient))];
      }
      SubstituteTracks(old(State()), recipeIngredients, userSelectedIngredients, originalIngredient, substituteIngredient);
    }

    /** Puts back the initial map, discarding every status change and substitution. */
    method ResetIngredientAvailability()
      requires Valid()
      modifies this
      ensures Valid()
      ensures State() == initial
    {
      order := initial.order;
      entries := initial.entries;
      InitialTracks(recipeIngredients, userSelectedIngredients);
    }

    /** Map.get: the entry for a current name, which is listed and filed under that name. */
    function GetIngredientState(ingredient: string): (r: Option<Entry>)
      reads this
      requires Valid()
      ensures r.Some? <==> ingredient in order
      ensures r.Some? ==> r.value.ingredient == ingredient && r.value in IngredientsList(State())
    {
      if ingredient in entries then
        var i :| 0 <= i < |order| && order[i] == ingredient;
        assert IngredientsList(State())[i] == entries[ingredient];
        Some(entries[ingredient])
      else None
    }
  }
}
