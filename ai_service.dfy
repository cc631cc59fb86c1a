/** The generation collaborator's client (backend/src/services/aiService.ts): the prompt,
    the clean-up and normalisation of the model's reply, and the error wrapping. The HTTP
    call to the model is the parameter `llm`; JSON.parse is the parameter `parse`, a
    partial function from text to a JSON value; Date.now() is the parameter `stamp`. */
module Ai {
  import opened Wrappers
  import opened Types
  import opened Strings

  /** The values JSON.parse can produce (numbers restricted to integers). */
  datatype Json =
    | JNull
    | JBool(b: bool)
    | JNum(n: int)
    | JStr(s: string)
    | JArr(items: seq<Json>)
    | JObj(fields: map<string, Json>)

  const ParseFailure: string := "Failed to parse recipe response"
  const GenerateFailure: string := "Failed to generate recipes"

  // ---------------------------------------------------------------------------
  // buildRecipePrompt
  // ---------------------------------------------------------------------------

  function Header(request: RecipeRequest): string {
    "Generate 3 " + request.cuisine + " recipes using these ingredients: " + Join(request.ingredients, ", ") + "."
  }

  const TemplateOpening: string :=
    "\n\nReturn the response as a JSON array with this exact structure:\n[\n  {\n    \"title\": \"Recipe Name\",\n    \"cuisine\": \""
  const TemplateClosing: string :=
    "\",\n    \"ingredients\": [\"ingredient 1\", \"ingredient 2\"],\n    \"instructions\": [\"step 1\", \"step 2\"],\n    \"cookingTime\": 30,\n    \"servings\": 4,\n    \"difficulty\": \"easy\",\n    \"description\": \"Brief description\"\n  }\n]\n\nOnly return the JSON array, no additional text."

  /** The closing JSON template, which names the requested cuisine. */
  function Template(cuisine: string): string {
    TemplateOpening + cuisine + TemplateClosing
  }

  function DifficultyClause(p: Option<Preferences>): string {
    if p.Some? && TruthyText(p.value.difficulty) then " Difficulty level: " + p.value.difficulty.value + "." else ""
  }

  function TimeClause(p: Option<Preferences>): string {
    if p.Some? && TruthyNumber(p.value.maxCookingTime) then " Maximum cooking time: " + IntToString(p.value.maxCookingTime.value) + " minutes." else ""
  }

  function ServingsClause(p: Option<Preferences>): string {
    if p.Some? && TruthyNumber(p.value.servings) then " Servings: " + IntToString(p.value.servings.value) + "." else ""
  }

  /** The preference clauses, each present only when its preference is set and truthy,
      in the order difficulty, cooking time, servings. */
  function PreferenceText(p: Option<Preferences>): string {
    DifficultyClause(p) + TimeClause(p) + ServingsClause(p)
  }

  /** buildRecipePrompt: the opening sentence, the preference clauses, the template. */
  function BuildRecipePrompt(request: RecipeRequest): string {
    Header(request) + PreferenceText(request.preferences) + Template(request.cuisine)
  }

  /** The prompt names every requested ingredient. */
  lemma PromptNamesIngredients(request: RecipeRequest, i: nat)
    requires i < |request.ingredients|
    ensures Contains(BuildRecipePrompt(request), request.ingredients[i])
  {
    var before, after := JoinSplit(request.ingredients, ", ", i);
    var name := request.ingredients[i];
    var joined := Join(request.ingredients, ", ");
    var opening := "Generate 3 " + request.cuisine + " recipes using these ingredients: ";
    ContainsInfix(before, name, after);
    ContainsPrepend(opening, joined, name);
    ContainsAppend(opening + joined, ".", name);
    ContainsAppend(Header(request), PreferenceText(request.preferences), name);
    ContainsAppend(Header(request) + PreferenceText(request.preferences), Template(request.cuisine), name);
  }

  /** The prompt names the requested cuisine, and the template asks for it back. */
  lemma PromptNamesCuisine(request: RecipeRequest)
    ensures Contains(BuildRecipePrompt(request), request.cuisine)
    ensures Contains(Template(request.cuisine), request.cuisine)
  {
    var c := request.cuisine;
    var joined := Join(request.ingredients, ", ");
    ContainsInfix("Generate 3 ", c, " recipes using these ingredients: ");
    var opening := "Generate 3 " + c + " recipes using these ingredients: ";
    ContainsAppend(opening, joined, c);
    ContainsAppend(opening + joined, ".", c);
    ContainsAppend(Header(request), PreferenceText(request.preferences), c);
    ContainsAppend(Header(request) + PreferenceText(request.preferences), Template(c), c);
    ContainsInfix(TemplateOpening, c, TemplateClosing);
  }

  /** Unset and falsy preferences (empty difficulty, zero time or servings) add nothing:
      the prompt is then the opening sentence followed by the template. */
  lemma PromptWithoutPreferences(request: RecipeRequest)
    requires request.preferences.None? ||
      (!TruthyText(request.preferences.value.difficulty) && !TruthyNumber(request.preferences.value.maxCookingTime)
       && !TruthyNumber(request.preferences.value.servings))
    ensures BuildRecipePrompt(request) == Header(request) + Template(request.cuisine)
  {
    var p := request.preferences;
    assert DifficultyClause(p) == "" && TimeClause(p) == "" && ServingsClause(p) == "";
    var header := Header(request);
    assert header + "" == header;
  }

  /** With all three preferences set and truthy, all three clauses are present, in the
      order difficulty, cooking time, servings. */
  lemma PromptWithAllPreferences(request: RecipeRequest, difficulty: string, time: int, servings: int)
    requires difficulty != "" && time != 0 && servings != 0
    requires request.preferences == Some(Preferences(Some(difficulty), Some(time), Some(servings)))
    ensures PreferenceText(request.preferences) ==
      (" Difficulty level: " + difficulty + ".")
      + (" Maximum cooking time: " + IntToString(time) + " minutes.")
      + (" Servings: " + IntToString(servings) + ".")
  {
    var p := request.preferences;
    assert DifficultyClause(p) == " Difficulty level: " + difficulty + ".";
    assert TimeClause(p) == " Maximum cooking time: " + IntToString(time) + " minutes.";
    assert ServingsClause(p) == " Servings: " + IntToString(servings) + ".";
  }

  // ---------------------------------------------------------------------------
  // parseRecipeResponse: clean-up of the reply
  // ---------------------------------------------------------------------------

  /** `replace(/```json\n?|\n?```/g, '')`: a left-to-right scan; at each position the
      first alternative is tried before the second, and each optional newline is taken
      when present. */
  function StripFences(s: string): string
    decreases |s|
  {
    if s == [] then []
    else if "```json\n" <= s then StripFences(s[8..])
    else if "```json" <= s then StripFences(s[7..])
    else if "\n```" <= s then StripFences(s[4..])
    else if "```" <= s then StripFences(s[3..])
    else [s[0]] + StripFences(s[1..])
  }

  function CleanResponse(response: string): string {
    StripFences(Trim(response))
  }

  predicate NoBackticks(s: string) {
    forall i :: 0 <= i < |s| ==> s[i] != '`'
  }

  /** Text without backticks passes through unchanged. */
  lemma {:induction false} StripFencesPlain(s: string)
    requires NoBackticks(s)
    ensures StripFences(s) == s
    decreases |s|
  {
    if s != [] {
      assert !("```" <= s) && !("\n```" <= s) by { if |s| >= 2 { assert s[1] != '`'; } }
      assert s == [s[0]] + s[1..];
      StripFencesPlain(s[1..]);
    }
  }

  /** A backtick-free body followed by the closing fence loses exactly the fence and the
      newline before it. */
  lemma {:induction false} StripClosingFence(body: string)
    requires NoBackticks(body)
    ensures StripFences(body + "\n```") == body
    decreases |body|
  {
    var s := body + "\n```";
    if body == [] {
      assert s == "\n```";
      assert StripFences(s) == StripFences(s[4..]);
      assert s[4..] == [];
    } else {
      assert s[0] == body[0] && body[0] != '`';
      assert s[1] != '`' by {
        if |body| >= 2 { assert s[1] == body[1]; } else { assert s[1] == '\n'; }
      }
      assert !("```json" <= s) && !("```" <= s) && !("\n```" <= s);
      assert s[1..] == body[1..] + "\n```";
      StripClosingFence(body[1..]);
      assert body == [body[0]] + body[1..];
    }
  }

  /** The usual Markdown wrapping "```json", newline, body, newline, "```" yields the body. */
  lemma StripJsonFence(body: string)
    requires NoBackticks(body)
    ensures StripFences("```json\n" + body + "\n```") == body
  {
    var s := "```json\n" + body + "\n```";
    assert "```json\n" <= s;
    assert s[8..] == body + "\n```";
    StripClosingFence(body);
  }

  /** A bare "```" fence leaves the newline that follows it in front of the body. */
  lemma StripBareFence(body: string)
    requires NoBackticks(body)
    ensures StripFences("```\n" + body + "\n```") == "\n" + body
  {
    var s := "```\n" + body + "\n```";
    assert !("```json" <= s) by { assert s[3] == '\n'; }
    assert !("\n```" <= s) by { assert s[0] == '`'; }
    assert s[3..] == "\n" + body + "\n```";
    var t := s[3..];
    assert !("```json" <= t) && !("```" <= t) by { assert t[0] == '\n'; }
    if body == [] {
      assert t == "\n\n```";
      assert !("\n```" <= t) by { assert t[1] == '\n'; }
      assert t[1..] == "\n```";
      assert StripFences(t[1..]) == StripFences(t[1..][4..]);
      assert t[1..][4..] == [];
    } else {
      assert !("\n```" <= t) by { assert t[1] == body[0]; }
      assert t[1..] == body + "\n```";
      StripClosingFence(body);
    }
  }

  /** White space around a fenced reply is trimmed away before the fences are stripped. */
  lemma CleanFencedResponse(ws1: string, body: string, ws2: string)
    requires AllWhitespace(ws1) && AllWhitespace(ws2)
    requires NoBackticks(body)
    ensures CleanResponse(ws1 + "```json\n" + body + "\n```" + ws2) == body
  {
    var fenced := "```json\n" + body + "\n```";
    assert fenced[0] == '`' && fenced[|fenced| - 1] == '`';
    assert ws1 + "```json\n" + body + "\n```" + ws2 == ws1 + fenced + ws2;
    TrimPadded(ws1, fenced, ws2);
    StripJsonFence(body);
  }

  // ---------------------------------------------------------------------------
  // parseRecipeResponse: defaults for each recipe
  // ---------------------------------------------------------------------------

  /** `recipe.key`: undefined (None) unless the value is an object with that key. */
  function Field(v: Json, key: string): Option<Json> {
    if v.JObj? && key in v.fields then Some(v.fields[key]) else None
  }

  /** `value || default` for a text field. */
  function TextOr(f: Option<Json>, default: string): string {
    match f
    case Some(JStr(s)) => if s != "" then s else default
    case _ => default
  }

  /** `value || default` for a number field; 0 is falsy. */
  function NumberOr(f: Option<Json>, default: int): int {
    match f
    case Some(JNum(n)) => if n != 0 then n else default
    case _ => default
  }

  function TextItems(items: seq<Json>): (r: seq<string>)
    ensures |r| <= |items|
    ensures forall s :: s in r <==> JStr(s) in items
  {
    if items == [] then []
    else if items[0].JStr? then [items[0].s] + TextItems(items[1..])
    else TextItems(items[1..])
  }

  /** `Array.isArray(value) ? value : []` (and `value || []` for tags). */
  function ListOr(f: Option<Json>): seq<string> {
    match f
    case Some(JArr(items)) => TextItems(items)
    case _ => []
  }

  const DefaultTitle: string := "Untitled Recipe"
  const DefaultCuisine: string := "Unknown"
  const DefaultCookingTime: int := 30
  const DefaultServings: int := 4
  const DefaultDifficulty: string := "medium"

  /** The field holds a non-empty string, which `||` keeps. */
  predicate TruthyTextField(f: Option<Json>) {
    f.Some? && f.value.JStr? && f.value.s != ""
  }

  /** The field holds a non-zero number, which `||` keeps. */
  predicate TruthyNumberField(f: Option<Json>) {
    f.Some? && f.value.JNum? && f.value.n != 0
  }

  /** `out` is what `value || default` gives for a text field: the value when it is a
      non-empty string, the default otherwise. */
  predicate KeepsTextOr(f: Option<Json>, default: string, out: string) {
    (TruthyTextField(f) ==> out == f.value.s) && (!TruthyTextField(f) ==> out == default)
  }

  /** `out` is what `value || default` gives for a number field. */
  predicate KeepsNumberOr(f: Option<Json>, default: int, out: int) {
    (TruthyNumberField(f) ==> out == f.value.n) && (!TruthyNumberField(f) ==> out == default)
  }

  /** `out` is what an array check gives: the string items of an array, and nothing for
      any other value. */
  predicate KeepsListOr(f: Option<Json>, out: seq<string>) {
    (f.Some? && f.value.JArr? ==> out == TextItems(f.value.items)) && (!(f.Some? && f.value.JArr?) ==> out == [])
  }

  /** One parsed element turned into a Recipe: each truthy field is kept and each falsy
      or missing one gets its default, so the text and number fields of the result are
      never falsy. */
  function NormaliseRecipe(v: Json, id: string): (r: Recipe)
    ensures r.id == id
    ensures KeepsTextOr(Field(v, "title"), DefaultTitle, r.title)
    ensures KeepsTextOr(Field(v, "cuisine"), DefaultCuisine, r.cuisine)
    ensures KeepsTextOr(Field(v, "difficulty"), DefaultDifficulty, r.difficulty)
    ensures r.description.Some? && KeepsTextOr(Field(v, "description"), "", r.description.value)
    ensures KeepsNumberOr(Field(v, "cookingTime"), DefaultCookingTime, r.cookingTime)
    ensures KeepsNumberOr(Field(v, "servings"), DefaultServings, r.servings)
    ensures KeepsListOr(Field(v, "ingredients"), r.ingredients)
    ensures KeepsListOr(Field(v, "instructions"), r.instructions)
    ensures r.tags.Some? && KeepsListOr(Field(v, "tags"), r.tags.value)
    ensures r.title != "" && r.cuisine != "" && r.difficulty != ""
    ensures r.cookingTime != 0 && r.servings != 0
  {
    Recipe(
      id,
      TextOr(Field(v, "title"), DefaultTitle),
      TextOr(Field(v, "cuisine"), DefaultCuisine),
      ListOr(Field(v, "ingredients")),
      ListOr(Field(v, "instructions")),
      NumberOr(Field(v, "cookingTime"), DefaultCookingTime),
      NumberOr(Field(v, "servings"), DefaultServings),
      TextOr(Field(v, "difficulty"), DefaultDifficulty),
      Some(TextOr(Field(v, "description"), "")),
      Some(ListOr(Field(v, "tags"))))
  }

  /** An element carrying none of the fields gets every default. */
  lemma NormaliseEmptyObject(id: string)
    ensures NormaliseRecipe(JObj(map[]), id) ==
      Recipe(id, DefaultTitle, DefaultCuisine, [], [], DefaultCookingTime, DefaultServings, DefaultDifficulty, Some(""), Some([]))
  {
  }

  /** Zero is falsy: a cooking time or serving count of 0 becomes the default, while a
      difficulty outside easy/medium/hard is kept as it is. */
  lemma NormaliseFalsyAndUnchecked(id: string, difficulty: string)
    requires difficulty != ""
    ensures var r := NormaliseRecipe(JObj(map["cookingTime" := JNum(0), "servings" := JNum(0), "difficulty" := JStr(difficulty)]), id);
      r.cookingTime == DefaultCookingTime && r.servings == DefaultServings && r.difficulty == difficulty
  {
  }

  /** A well-formed element keeps every value it carries. */
  lemma NormaliseKeepsTruthyValues(id: string, title: string, cuisine: string, ingredients: seq<string>,
                                   cookingTime: int, servings: int)
    requires title != "" && cuisine != "" && cookingTime != 0 && servings != 0
    ensures var r := NormaliseRecipe(JObj(map["title" := JStr(title), "cuisine" := JStr(cuisine),
                                               "cookingTime" := JNum(cookingTime), "servings" := JNum(servings),
                                               "ingredients" := JArr(seq(|ingredients|, i requires 0 <= i < |ingredients| => JStr(ingredients[i])))]), id);
      r.title == title && r.cuisine == cuisine && r.cookingTime == cookingTime && r.servings == servings
      && r.ingredients == ingredients && r.instructions == []
  {
    var items := seq(|ingredients|, i requires 0 <= i < |ingredients| => JStr(ingredients[i]));
    var v := JObj(map["title" := JStr(title), "cuisine" := JStr(cuisine),
                      "cookingTime" := JNum(cookingTime), "servings" := JNum(servings),
                      "ingredients" := JArr(items)]);
    assert Field(v, "title") == Some(JStr(title));
    assert Field(v, "cuisine") == Some(JStr(cuisine));
    assert Field(v, "cookingTime") == Some(JNum(cookingTime));
    assert Field(v, "servings") == Some(JNum(servings));
    assert Field(v, "ingredients") == Some(JArr(items));
    assert Field(v, "instructions") == None;
    TextItemsOfStrings(ingredients, items);
  }

  lemma {:induction false} TextItemsOfStrings(xs: seq<string>, items: seq<Json>)
    requires items == seq(|xs|, i requires 0 <= i < |xs| => JStr(xs[i]))
    ensures TextItems(items) == xs
  {
    if xs != [] {
      assert items[1..] == seq(|xs[1..]|, i requires 0 <= i < |xs[1..]| => JStr(xs[1..][i]));
      TextItemsOfStrings(xs[1..], items[1..]);
      assert xs == [xs[0]] + xs[1..];
    }
  }

  /** `generated-${Date.now()}-${index}`. */
  function GeneratedId(stamp: nat, index: nat): string {
    "generated-" + NatToString(stamp) + "-" + NatToString(index)
  }

  lemma GeneratedIdsDistinct(stamp: nat, i: nat, j: nat)
    requires i != j
    ensures GeneratedId(stamp, i) != GeneratedId(stamp, j)
  {
    var prefix := "generated-" + NatToString(stamp) + "-";
    if GeneratedId(stamp, i) == GeneratedId(stamp, j) {
      assert GeneratedId(stamp, i) == prefix + NatToString(i);
      assert GeneratedId(stamp, j) == prefix + NatToString(j);
      assert (prefix + NatToString(i))[|prefix|..] == NatToString(i);
      assert (prefix + NatToString(j))[|prefix|..] == NatToString(j);
      NatToStringInjective(i, j);
    }
  }

  /** `recipes.map(...)` needs an array, and reading a field of a null element throws. */
  predicate ParsedRecipes(parsed: Option<Json>) {
    parsed.Some? && parsed.value.JArr? && forall i :: 0 <= i < |parsed.value.items| ==> !parsed.value.items[i].JNull?
  }

  /** parseRecipeResponse: clean the reply, parse it, and normalise each element; any
      failure becomes "Failed to parse recipe response". */
  function ParseRecipeResponse(response: string, parse: string -> Option<Json>, stamp: nat): (r: Result<seq<Recipe>>)
    ensures r.Success? <==> ParsedRecipes(parse(CleanResponse(response)))
    ensures r.Failure? ==> r.error == ParseFailure
    ensures r.Success? ==>
      var items := parse(CleanResponse(response)).value.items;
      && |r.value| == |items|
      && (forall i :: 0 <= i < |items| ==> r.value[i] == NormaliseRecipe(items[i], GeneratedId(stamp, i)))
      && (forall i, j :: 0 <= i < j < |r.value| ==> r.value[i].id != r.value[j].id)
  {
    var parsed := parse(CleanResponse(response));
    if ParsedRecipes(parsed) then
      var items := parsed.value.items;
      var recipes := seq(|items|, i requires 0 <= i < |items| => NormaliseRecipe(items[i], GeneratedId(stamp, i)));
      assert forall i, j :: 0 <= i < j < |recipes| ==> recipes[i].id != recipes[j].id by {
        forall i, j | 0 <= i < j < |recipes| ensures recipes[i].id != recipes[j].id {
          GeneratedIdsDistinct(stamp, i, j);
        }
      }
      Success(recipes)
    else Failure(ParseFailure)
  }

  /** generateRecipes: prompt, call the model, parse; every failure, the parser's own
      included, surfaces as "Failed to generate recipes". */
  function GenerateRecipes(request: RecipeRequest, llm: string -> Result<string>, parse: string -> Option<Json>, stamp: nat)
    : (r: Result<seq<Recipe>>)
    ensures r.Failure? ==> r.error == GenerateFailure
    ensures var reply := llm(BuildRecipePrompt(request));
      r.Success? <==> reply.Success? && ParseRecipeResponse(reply.value, parse, stamp).Success?
    ensures var reply := llm(BuildRecipePrompt(request));
      r.Success? ==> r.value == ParseRecipeResponse(reply.value, parse, stamp).value
  {
    match llm(BuildRecipePrompt(request))
    case Failure(_) => Failure(GenerateFailure)
    case Success(text) =>
      match ParseRecipeResponse(text, parse, stamp)
      case Failure(_) => Failure(GenerateFailure)
      case Success(recipes) => Success(recipes)
  }

  /** A reply that does not parse as JSON is a failure, never an empty list. */
  lemma UnparseableReplyFails(request: RecipeRequest, llm: string -> Result<string>, parse: string -> Option<Json>, stamp: nat)
    requires llm(BuildRecipePrompt(request)).Success?
    requires parse(CleanResponse(llm(BuildRecipePrompt(request)).value)).None?
    ensures GenerateRecipes(request, llm, parse, stamp) == Failure(GenerateFailure)
  {
  }

  /** Generated recipes have pairwise distinct ids. */
  lemma GeneratedRecipesDistinctIds(request: RecipeRequest, llm: string -> Result<string>, parse: string -> Option<Json>, stamp: nat)
    requires GenerateRecipes(request, llm, parse, stamp).Success?
    ensures var rs := GenerateRecipes(request, llm, parse, stamp).value;
      forall i, j :: 0 <= i < j < |rs| ==> rs[i].id != rs[j].id
  {
  }
}
