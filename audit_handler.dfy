/** The `POST` handler of the dish audit: classify the photo, reject what is
    not food, look a prepared dish up in RecipeDB and FlavorDB, and merge the
    databases' data with the model's estimate into one verdict. The
    databases are oracles keyed by the dish name. */
module AuditHandler {
  import opened JsStrings
  import opened JsValues
  import opened IngredientParser
  import opened VisionClassifier

  /** The first match of a RecipeDB search, with the fields the handler reads:
      `Recipe_title`, `Ingredients`, `ingredients`, `Energy`, `Calories`,
      `Protein` and `Total lipid (fat)`. An absent field is `Undefined`. */
  datatype Recipe = Recipe(
    title: Option<string>,
    ingredients: JsValue,
    ingredientsAlt: JsValue,
    energy: JsValue,
    calories: JsValue,
    protein: JsValue,
    fat: JsValue)

  /** A FlavorDB entity: `entity_alias_readable` and `category_readable`. */
  datatype Flavor = Flavor(alias: Option<string>, category: Option<string>)

  /** One database request: it threw inside the handler's `try` block, the
      response was not ok, or it was ok and found a truthy entry (`Some`) or
      none (`None`). */
  datatype Lookup<T> = Threw | NotOk | Ok(found: Option<T>)

  /** A RecipeDB search. `Threw` also covers a search whose first match is
      `null` or `undefined`: the handler logs `recipe.Recipe_title` right
      after taking that match, the property read throws, and the `catch`
      skips FlavorDB. A first match that is falsy but not nullish is read
      without a throw and is `Ok(None)`. */
  type RecipeDb = string -> Lookup<Recipe>
  /** A FlavorDB lookup; a falsy JSON body is `Ok(None)`. */
  type FlavorDb = string -> Lookup<Flavor>

  /** The database requests the handler sends, in order. */
  datatype Query = RecipeSearch(dish: string) | FlavorSearch(dish: string)

  datatype AuditData = AuditData(
    isFood: bool,
    freshness: string,
    score: int,
    ingredients: seq<string>,
    calories: Numeric,
    recipeName: Option<string>,
    protein: Numeric,
    fat: Numeric,
    category: string)

  /** The JSON body of the reply: `status: 'error'` or `status: 'success'`. */
  datatype Response = Rejected(reason: string, refundAmount: int) | Verified(message: string, data: AuditData)

  datatype Handled = Handled(response: Response, queries: seq<Query>)

  /** What the database step found, and the requests it sent. */
  datatype Sources = Sources(recipe: Option<Recipe>, flavor: Option<Flavor>, queries: seq<Query>)

  const DefaultDish: string := "Detected Dish"
  const NotFoodReason: string := "Image does not appear to be food."
  const UnknownIngredients: seq<string> := ["Unknown"]
  const PackagedKind: string := "packaged"
  const PackagedCategory: string := "Packaged Snack"
  const GeneralCategory: string := "General Food"
  const DefaultFreshness: string := "fresh"
  const VerifiedPrefix: string := "Dish verified: "

  /** `x || 0` for an optional number. */
  function OrZero(x: Option<int>): int {
    if x.Some? then x.value else 0
  }

  /** The photo the handler classifies: the first photo URL, when truthy. */
  predicate HasPhoto(photo: Option<string>) {
    photo.Some? && photo.value != ""
  }

  /** `analysisResult` after the vision step: `null` without a photo or when
      the model's JSON was falsy. */
  function AnalysisOf(photo: Option<string>, keys: ApiKeys, call: Caller, replyParse: ReplyParser): Option<Analysis> {
    if HasPhoto(photo) then
      match Classify(photo.value, keys, call, replyParse)
      case Value(a) => Some(a)
      case Falsy => None
    else None
  }

  /** `analysisResult.isFood === false`: only an explicit `false` rejects. */
  predicate IsNotFood(analysis: Option<Analysis>) {
    analysis.Some? && analysis.value.isFood == Some(false)
  }

  /** `reason || error || 'Image does not appear to be food.'`. */
  function RejectionReason(a: Analysis): (reason: string)
    ensures reason != ""
  {
    OrElse(a.reason, OrElse(a.error, NotFoodReason))
  }

  function DishName(analysis: Option<Analysis>): (dish: string)
    ensures dish != ""
  {
    if analysis.Some? then OrElse(analysis.value.dishName, DefaultDish) else DefaultDish
  }

  /** `analysisResult?.type === 'packaged'`. */
  predicate IsPackaged(analysis: Option<Analysis>) {
    analysis.Some? && analysis.value.kind == Some(PackagedKind)
  }

  /** What an ok FlavorDB response found; nothing otherwise. */
  function FlavorFound(resp: Lookup<Flavor>): Option<Flavor> {
    if resp.Ok? then resp.found else None
  }

  /** The database step. A packaged product sends no request. A prepared
      dish is searched in RecipeDB, then in FlavorDB, both by dish name; a
      RecipeDB request that throws ends the step before FlavorDB is asked,
      while a failed FlavorDB request keeps the recipe found. */
  function Lookups(dish: string, packaged: bool, recipeDb: RecipeDb, flavorDb: FlavorDb): (src: Sources)
    ensures packaged <==> src.queries == []
    ensures !packaged ==> src.queries == [RecipeSearch(dish)] + (if recipeDb(dish).Threw? then [] else [FlavorSearch(dish)])
    ensures src.recipe.Some? <==> !packaged && recipeDb(dish).Ok? && recipeDb(dish).found.Some?
    ensures src.recipe.Some? ==> src.recipe == recipeDb(dish).found
    ensures src.flavor.Some? <==>
      !packaged && !recipeDb(dish).Threw? && flavorDb(dish).Ok? && flavorDb(dish).found.Some?
    ensures src.flavor.Some? ==> src.flavor == flavorDb(dish).found
  {
    if packaged then Sources(None, None, [])
    else
      match recipeDb(dish)
      case Threw => Sources(None, None, [RecipeSearch(dish)])
      case NotOk => Sources(None, FlavorFound(flavorDb(dish)), [RecipeSearch(dish), FlavorSearch(dish)])
      case Ok(recipe) => Sources(recipe, FlavorFound(flavorDb(dish)), [RecipeSearch(dish), FlavorSearch(dish)])
  }

  /** `analysisResult?.ingredients || ['Unknown']` (an empty list is kept). */
  function ModelIngredients(analysis: Option<Analysis>): seq<string> {
    if analysis.Some? && analysis.value.ingredients.Some? then analysis.value.ingredients.value
    else UnknownIngredients
  }

  /** `analysisResult?.calories || 0`. */
  function ModelCalories(analysis: Option<Analysis>): int {
    if analysis.Some? then OrZero(analysis.value.calories) else 0
  }

  /** `analysisResult?.protein || 0`. */
  function ModelProtein(analysis: Option<Analysis>): int {
    if analysis.Some? then OrZero(analysis.value.protein) else 0
  }

  /** `analysisResult?.fat || 0`. */
  function ModelFat(analysis: Option<Analysis>): int {
    if analysis.Some? then OrZero(analysis.value.fat) else 0
  }

  /** `parseFloat(recipe.Energy || recipe.Calories || '0')`. */
  function RecipeCalories(r: Recipe): Numeric {
    ParseFloat(Or(r.energy, Or(r.calories, Str("0"))))
  }

  /** Ingredients: the model's for a packaged product, otherwise the
      recipe's, then the FlavorDB alias, then the model's. */
  function Ingredients(analysis: Option<Analysis>, dish: string, packaged: bool, src: Sources, parse: JsonArrayParser): seq<string> {
    if packaged then ModelIngredients(analysis)
    else if src.recipe.Some? then
      ParseIngredients(Or(src.recipe.value.ingredients, src.recipe.value.ingredientsAlt), parse)
    else if src.flavor.Some? then [OrElse(src.flavor.value.alias, dish)]
    else ModelIngredients(analysis)
  }

  /** Calories before the last-resort step, chosen like the ingredients. */
  function BaseCalories(analysis: Option<Analysis>, packaged: bool, src: Sources): Numeric {
    if packaged then Finite(ModelCalories(analysis))
    else if src.recipe.Some? then RecipeCalories(src.recipe.value)
    else if src.flavor.Some? then Finite(0)
    else Finite(ModelCalories(analysis))
  }

  /** Zero calories are replaced by the model's estimate when it has one. */
  function FinalCalories(analysis: Option<Analysis>, base: Numeric): Numeric {
    if base == Finite(0) && ModelCalories(analysis) != 0 then Finite(ModelCalories(analysis)) else base
  }

  /** How much of the verdict rests on curated data. */
  function Score(analysis: Option<Analysis>, src: Sources): int {
    if src.recipe.Some? then 92
    else if src.flavor.Some? then 88
    else if analysis.Some? then 85
    else 50
  }

  function RecipeName(dish: string, src: Sources): Option<string> {
    if src.recipe.Some? then src.recipe.value.title
    else if src.flavor.Some? then Some(OrElse(src.flavor.value.alias, dish))
    else Some(dish)
  }

  function Protein(analysis: Option<Analysis>, src: Sources): Numeric {
    if src.recipe.Some? then ParseFloat(Or(src.recipe.value.protein, Str("0")))
    else Finite(ModelProtein(analysis))
  }

  function Fat(analysis: Option<Analysis>, src: Sources): Numeric {
    if src.recipe.Some? then ParseFloat(Or(src.recipe.value.fat, Str("0")))
    else Finite(ModelFat(analysis))
  }

  function Category(packaged: bool, src: Sources): string {
    if src.flavor.Some? && src.flavor.value.category.Some? && src.flavor.value.category.value != "" then
      src.flavor.value.category.value
    else if packaged then PackagedCategory
    else GeneralCategory
  }

  function Freshness(analysis: Option<Analysis>): string {
    if analysis.Some? then OrElse(analysis.value.freshness, DefaultFreshness) else DefaultFreshness
  }

  /** The whole decision for a given `analysisResult`: the reply and the
      database requests sent on the way. */
  function Handle(analysis: Option<Analysis>, recipeDb: RecipeDb, flavorDb: FlavorDb, parse: JsonArrayParser): Handled {
    if IsNotFood(analysis) then
      Handled(Rejected(RejectionReason(analysis.value), 0), [])
    else
      var dish := DishName(analysis);
      var packaged := IsPackaged(analysis);
      var src := Lookups(dish, packaged, recipeDb, flavorDb);
      var data := AuditData(
        true,
        Freshness(analysis),
        Score(analysis, src),
        Ingredients(analysis, dish, packaged, src, parse),
        FinalCalories(analysis, BaseCalories(analysis, packaged, src)),
        RecipeName(dish, src),
        Protein(analysis, src),
        Fat(analysis, src),
        Category(packaged, src));
      Handled(Verified(VerifiedPrefix + dish, data), src.queries)
  }

  /** `POST`, with the request body reduced to its first photo URL. It
      returns the reply, the vision backends tried and the database requests
      sent. */
  method Post(photo: Option<string>, keys: ApiKeys, call: Caller, replyParse: ReplyParser,
              recipeDb: RecipeDb, flavorDb: FlavorDb, parse: JsonArrayParser)
    returns (response: Response, attempts: seq<Attempt>, queries: seq<Query>)
    ensures attempts == (if HasPhoto(photo) then
      Attempts(CascadeOrder(keys), StripDataUriPrefix(photo.value), call, replyParse) else [])
    ensures Handled(response, queries) == Handle(AnalysisOf(photo, keys, call, replyParse), recipeDb, flavorDb, parse)
  {
    var dishName := DefaultDish;
    var analysisResult: Option<Analysis> := None;
    attempts := [];
    queries := [];

    if HasPhoto(photo) {
      var reply;
      reply, attempts := AnalyzeImage(photo.value, keys, call, replyParse);
      if reply.Value? {
        analysisResult := Some(reply.analysis);
        if reply.analysis.isFood == Some(false) {
          return Rejected(RejectionReason(reply.analysis), 0), attempts, [];
        }
        dishName := OrElse(reply.analysis.dishName, dishName);
      }
    }

    var useModelIngredients := analysisResult.Some? && analysisResult.value.kind == Some(PackagedKind);
    var recipe, flavorData;
    recipe, flavorData, queries := FetchSources(dishName, useModelIngredients, recipeDb, flavorDb);
    var finalIngredients, finalCalories :=
      CombineData(analysisResult, dishName, useModelIngredients, recipe, flavorData, parse);
    var src := Sources(recipe, flavorData, queries);
    assert src == Lookups(dishName, useModelIngredients, recipeDb, flavorDb);
    response := Verified(VerifiedPrefix + dishName, AuditData(
      true,
      Freshness(analysisResult),
      Score(analysisResult, src),
      finalIngredients,
      finalCalories,
      RecipeName(dishName, src),
      Protein(analysisResult, src),
      Fat(analysisResult, src),
      Category(useModelIngredients, src)));
  }

  /** Step 2 of `POST`, the database requests. */
  method FetchSources(dishName: string, useModelIngredients: bool, recipeDb: RecipeDb, flavorDb: FlavorDb)
    returns (recipe: Option<Recipe>, flavorData: Option<Flavor>, queries: seq<Query>)
    ensures Sources(recipe, flavorData, queries) == Lookups(dishName, useModelIngredients, recipeDb, flavorDb)
  {
    recipe := None;
    flavorData := None;
    queries := [];
    if !useModelIngredients {
      queries := [RecipeSearch(dishName)];
      var search := recipeDb(dishName);
      if !search.Threw? {
        if search.Ok? {
          recipe := search.found;
        }
        queries := queries + [FlavorSearch(dishName)];
        var flavorResp := flavorDb(dishName);
        if flavorResp.Ok? {
          flavorData := flavorResp.found;
        }
      }
    }
  }

  /** Step 3 of `POST`, the choice of ingredients and calories. */
  method CombineData(analysisResult: Option<Analysis>, dishName: string, useModelIngredients: bool,
                     recipe: Option<Recipe>, flavorData: Option<Flavor>, parse: JsonArrayParser)
    returns (finalIngredients: seq<string>, finalCalories: Numeric)
    ensures var src := Sources(recipe, flavorData, []);
      finalIngredients == Ingredients(analysisResult, dishName, useModelIngredients, src, parse)
      && finalCalories == FinalCalories(analysisResult, BaseCalories(analysisResult, useModelIngredients, src))
  {
    finalIngredients := UnknownIngredients;
    finalCalories := Finite(0);
    if useModelIngredients {
      finalIngredients := ModelIngredients(analysisResult);
      finalCalories := Finite(ModelCalories(analysisResult));
    } else if recipe.Some? {
      finalIngredients := ParseIngredients(Or(recipe.value.ingredients, recipe.value.ingredientsAlt), parse);
      finalCalories := RecipeCalories(recipe.value);
    } else if flavorData.Some? {
      finalIngredients := [OrElse(flavorData.value.alias, dishName)];
      finalCalories := Finite(0);
    } else {
      finalIngredients := ModelIngredients(analysisResult);
      finalCalories := Finite(ModelCalories(analysisResult));
    }

    if finalCalories == Finite(0) && ModelCalories(analysisResult) != 0 {
      finalCalories := Finite(ModelCalories(analysisResult));
    }
  }

  /** The handler rejects exactly when the model says `isFood: false`; it
      then refunds nothing and sends no database request. An absent
      `isFood` counts as food. */
  lemma RejectedIffNotFood(analysis: Option<Analysis>, recipeDb: RecipeDb, flavorDb: FlavorDb, parse: JsonArrayParser)
    ensures var h := Handle(analysis, recipeDb, flavorDb, parse);
      (h.response.Rejected? <==> IsNotFood(analysis))
      && (h.response.Rejected? ==>
            h.response == Rejected(RejectionReason(analysis.value), 0) && h.queries == [])
      && (h.response.Verified? ==>
            h.response.message == VerifiedPrefix + DishName(analysis) && h.response.data.isFood)
  {
  }

  /** A packaged product is never looked up: the model's ingredients and
      calories are used, with score 85 and the packaged category. */
  lemma PackagedTrustsModel(analysis: Option<Analysis>, recipeDb: RecipeDb, flavorDb: FlavorDb, parse: JsonArrayParser)
    requires IsPackaged(analysis) && !IsNotFood(analysis)
    ensures var h := Handle(analysis, recipeDb, flavorDb, parse);
      h.queries == [] && h.response.Verified?
      && h.response.data.ingredients == ModelIngredients(analysis)
      && h.response.data.calories == Finite(ModelCalories(analysis))
      && h.response.data.score == 85
      && h.response.data.category == PackagedCategory
  {
  }

  /** Any other dish is searched in RecipeDB and then, unless that request
      threw, in FlavorDB, both by the dish name. */
  lemma PreparedQueriesRecipeThenFlavor(analysis: Option<Analysis>, recipeDb: RecipeDb, flavorDb: FlavorDb, parse: JsonArrayParser)
    requires !IsPackaged(analysis) && !IsNotFood(analysis)
    ensures var dish := DishName(analysis);
      Handle(analysis, recipeDb, flavorDb, parse).queries ==
        [RecipeSearch(dish)] + (if recipeDb(dish).Threw? then [] else [FlavorSearch(dish)])
  {
  }

  /** The score says which source the data came from: 92 for a recipe, 88
      for a FlavorDB entity, 85 for the model alone, 50 for nothing. */
  lemma ScoreNamesTheSource(analysis: Option<Analysis>, recipeDb: RecipeDb, flavorDb: FlavorDb, parse: JsonArrayParser)
    requires !IsNotFood(analysis)
    ensures var src := Lookups(DishName(analysis), IsPackaged(analysis), recipeDb, flavorDb);
      var score := Handle(analysis, recipeDb, flavorDb, parse).response.data.score;
      score in {50, 85, 88, 92}
      && (score == 92 <==> src.recipe.Some?)
      && (score == 88 <==> src.recipe.None? && src.flavor.Some?)
      && (score == 85 <==> src.recipe.None? && src.flavor.None? && analysis.Some?)
      && (score == 50 <==> src.recipe.None? && src.flavor.None? && analysis.None?)
  {
  }

  /** A recipe found in RecipeDB supplies the ingredients, the name, the
      protein and the fat. */
  lemma RecipeDataWins(analysis: Option<Analysis>, recipeDb: RecipeDb, flavorDb: FlavorDb, parse: JsonArrayParser)
    requires !IsPackaged(analysis) && !IsNotFood(analysis)
    requires recipeDb(DishName(analysis)).Ok? && recipeDb(DishName(analysis)).found.Some?
    ensures var r := recipeDb(DishName(analysis)).found.value;
      var data := Handle(analysis, recipeDb, flavorDb, parse).response.data;
      data.ingredients == ParseIngredients(Or(r.ingredients, r.ingredientsAlt), parse)
      && data.recipeName == r.title
      && data.protein == ParseFloat(Or(r.protein, Str("0")))
      && data.fat == ParseFloat(Or(r.fat, Str("0")))
      && (RecipeCalories(r) != Finite(0) ==> data.calories == RecipeCalories(r))
      && (RecipeCalories(r) == Finite(0) ==> data.calories == Finite(ModelCalories(analysis)))
      && data.category ==
         (if flavorDb(DishName(analysis)).Ok? && flavorDb(DishName(analysis)).found.Some?
          then OrElse(flavorDb(DishName(analysis)).found.value.category, GeneralCategory)
          else GeneralCategory)
  {
  }

  /** Without a recipe, a FlavorDB entity names the dish: its alias (or the
      dish name) is the one ingredient and the recipe name, its category is
      used when non-empty, the score is 88, and the calories, protein and fat
      are the model's (FlavorDB supplies no calories). */
  lemma FlavorAliasWhenNoRecipe(analysis: Option<Analysis>, recipeDb: RecipeDb, flavorDb: FlavorDb, parse: JsonArrayParser)
    requires !IsPackaged(analysis) && !IsNotFood(analysis)
    requires recipeDb(DishName(analysis)) in {NotOk, Ok(None)}
    requires flavorDb(DishName(analysis)).Ok? && flavorDb(DishName(analysis)).found.Some?
    ensures var dish := DishName(analysis);
      var f := flavorDb(dish).found.value;
      var data := Handle(analysis, recipeDb, flavorDb, parse).response.data;
      data.ingredients == [OrElse(f.alias, dish)]
      && data.recipeName == Some(OrElse(f.alias, dish))
      && data.score == 88
      && data.category == OrElse(f.category, GeneralCategory)
      && data.calories == Finite(ModelCalories(analysis))
      && data.protein == Finite(ModelProtein(analysis))
      && data.fat == Finite(ModelFat(analysis))
  {
  }

  /** When neither database found anything (RecipeDB threw, failed or had no
      match, and FlavorDB was not asked, failed or found nothing), a prepared
      dish falls back to the model: its ingredients (or `['Unknown']`), its
      calories, protein and fat, the dish name, the general category, and
      score 85, or 50 without a classifier result. */
  lemma ModelFallbackWithoutData(analysis: Option<Analysis>, recipeDb: RecipeDb, flavorDb: FlavorDb, parse: JsonArrayParser)
    requires !IsPackaged(analysis) && !IsNotFood(analysis)
    requires !(recipeDb(DishName(analysis)).Ok? && recipeDb(DishName(analysis)).found.Some?)
    requires recipeDb(DishName(analysis)).Threw?
          || !(flavorDb(DishName(analysis)).Ok? && flavorDb(DishName(analysis)).found.Some?)
    ensures var dish := DishName(analysis);
      var data := Handle(analysis, recipeDb, flavorDb, parse).response.data;
      data.ingredients == ModelIngredients(analysis)
      && data.calories == Finite(ModelCalories(analysis))
      && data.recipeName == Some(dish)
      && data.score == (if analysis.Some? then 85 else 50)
      && data.category == GeneralCategory
      && data.protein == Finite(ModelProtein(analysis))
      && data.fat == Finite(ModelFat(analysis))
  {
  }

  /** Zero calories are a last resort: a zero from the chosen source is
      replaced by the model's estimate, any other value is kept, and so the
      reply says 0 only when the model gave no nonzero estimate. */
  lemma ZeroCaloriesOnlyWithoutEstimate(analysis: Option<Analysis>, recipeDb: RecipeDb, flavorDb: FlavorDb, parse: JsonArrayParser)
    requires !IsNotFood(analysis)
    ensures var calories := Handle(analysis, recipeDb, flavorDb, parse).response.data.calories;
      var src := Lookups(DishName(analysis), IsPackaged(analysis), recipeDb, flavorDb);
      var base := BaseCalories(analysis, IsPackaged(analysis), src);
      (base == Finite(0) ==> calories == Finite(ModelCalories(analysis)))
      && (base != Finite(0) ==> calories == base)
      && (calories == Finite(0) ==> ModelCalories(analysis) == 0)
  {
  }

  /** A recipe without `Energy` and `Calories` reads as 0 calories, so the
      model's estimate is used. */
  lemma RecipeWithoutEnergyUsesEstimate(analysis: Option<Analysis>, recipeDb: RecipeDb, flavorDb: FlavorDb, parse: JsonArrayParser)
    requires !IsPackaged(analysis) && !IsNotFood(analysis)
    requires recipeDb(DishName(analysis)).Ok? && recipeDb(DishName(analysis)).found.Some?
    requires recipeDb(DishName(analysis)).found.value.energy == Undefined
    requires recipeDb(DishName(analysis)).found.value.calories == Undefined
    ensures Handle(analysis, recipeDb, flavorDb, parse).response.data.calories == Finite(ModelCalories(analysis))
  {
    ParseFloatOfZeroText();
  }

  /** When every vision backend fails the photo is rejected with the
      providers' error text, and no database is asked. */
  lemma UnavailableProvidersReject(photo: string, keys: ApiKeys, call: Caller, replyParse: ReplyParser,
                                   recipeDb: RecipeDb, flavorDb: FlavorDb, parse: JsonArrayParser)
    requires photo != ""
    requires forall b :: b in CascadeOrder(keys) ==> !Answers(b, StripDataUriPrefix(photo), call, replyParse)
    ensures Handle(AnalysisOf(Some(photo), keys, call, replyParse), recipeDb, flavorDb, parse)
      == Handled(Rejected(UnavailableError, 0), [])
  {
    AllProvidersFail(photo, keys, call, replyParse);
  }

  /** Without a photo, or with a falsy model reply, nothing is rejected,
      the dish is the default one and the freshness is "fresh". */
  lemma NoAnalysisIsAccepted(recipeDb: RecipeDb, flavorDb: FlavorDb, parse: JsonArrayParser)
    ensures var h := Handle(None, recipeDb, flavorDb, parse);
      h.response.Verified?
      && h.response.message == VerifiedPrefix + DefaultDish
      && h.response.data.freshness == DefaultFreshness
      && h.response.data.score in {50, 88, 92}
      && h.queries[0] == RecipeSearch(DefaultDish)
  {
  }
}
