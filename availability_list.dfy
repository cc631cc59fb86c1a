/** The availability list of a recipe (frontend/src/components/IngredientAvailabilityList.tsx):
    how a status event from a row is routed, when a row's control is disabled, and the
    summary counts. */
module AvailabilityList {
  import opened Availability
  import StatusButton

  /** The callback a row's status event is handed to. */
  datatype Call = StatusChange(ingredient: string, status: Status) | RequestAlternatives(ingredient: string)

  /** handleStatusChange: "unavailable" asks for alternatives instead of changing the
      status; every other status goes to the status callback. Both carry the row's name. */
  function HandleStatusChange(ingredient: string, status: Status): (c: Call)
    ensures c.ingredient == ingredient
    ensures c.RequestAlternatives? <==> status == Unavailable
    ensures c.StatusChange? ==> c.status == status
  {
    if status == Unavailable then RequestAlternatives(ingredient) else StatusChange(ingredient, status)
  }

  /** The tracker after a call, with the status callback bound to the tracker's
      setIngredientStatus; asking for alternatives changes no entry. */
  function Apply(t: Tracker, c: Call): Tracker {
    match c
    case StatusChange(k, s) => SetStatus(t, k, s)
    case RequestAlternatives(_) => t
  }

  /** No entry becomes unavailable through the list: its status after any routed event is
      unavailable only if it was before, and no entry disappears. */
  lemma NeverMarksUnavailable(t: Tracker, ingredient: string, status: Status, k: string)
    requires Valid(t) && k in t.entries
    ensures var r := Apply(t, HandleStatusChange(ingredient, status));
      k in r.entries && (r.entries[k].status == Unavailable ==> t.entries[k].status == Unavailable)
  {
    var c := HandleStatusChange(ingredient, status);
    if c.StatusChange? {
      SetStatusEffect(t, ingredient, status);
    }
  }

  /** A row's control is disabled for a user-selected ingredient that is available. */
  predicate IsDisabled(e: Entry) {
    e.isUserSelected && e.status == Available
  }

  /** A row's control reports a status, routed with the row's own name. */
  predicate RowEvent(t: Tracker, row: string, status: Status)
    requires Valid(t)
  {
    row in t.entries && status in StatusButton.Emittable(t.entries[row].status, IsDisabled(t.entries[row]))
  }

  /** An available user-selected ingredient cannot be changed from the list: its own row
      reports nothing, and events from other rows leave its entry alone. */
  lemma SelectedAvailableIsFrozen(t: Tracker, row: string, status: Status, k: string)
    requires Valid(t) && RowEvent(t, row, status)
    requires k in t.entries && IsDisabled(t.entries[k])
    ensures var r := Apply(t, HandleStatusChange(row, status));
      k in r.entries && r.entries[k] == t.entries[k]
  {
    var c := HandleStatusChange(row, status);
    if c.StatusChange? {
      SetStatusEffect(t, row, status);
      assert row != k;
    }
  }

  /** Right after construction every user-selected ingredient's control is disabled. */
  lemma SelectedStartDisabled(recipeIngredients: seq<string>, selected: seq<string>, k: string)
    requires k in recipeIngredients && SelectedByUser(selected, k)
    ensures k in Initial(recipeIngredients, selected).entries
    ensures IsDisabled(Initial(recipeIngredients, selected).entries[k])
  {
    InitialEntries(recipeIngredients, selected, k);
  }

  /** The summary's counts. */
  datatype Summary = Summary(available: nat, unavailable: nat, unknown: nat, substituted: nat)

  /** The summary: each count is the length of its filter, the three status counts add
      up to the number of rows, and the substituted count, shown only when positive, is
      positive exactly when some row shows the "Substituted" badge. */
  function Summarize(list: seq<Entry>): (s: Summary)
    ensures s.available == |WithStatus(list, Available)|
    ensures s.unavailable == |WithStatus(list, Unavailable)|
    ensures s.unknown == |WithStatus(list, Unknown)|
    ensures s.substituted == |SubstitutedIngredients(list)|
    ensures s.available + s.unavailable + s.unknown == |list|
    ensures s.substituted > 0 <==> exists e :: e in list && IsSubstituted(e)
  {
    StatusPartition(list);
    var substituted := SubstitutedIngredients(list);
    assert substituted != [] ==> substituted[0] in substituted;
    Summary(|WithStatus(list, Available)|, |WithStatus(list, Unavailable)|, |WithStatus(list, Unknown)|, |substituted|)
  }
}
