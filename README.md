# Dish audit endpoint, modelled in Dafny

The endpoint `POST /api/audit-dish` receives a photo of a delivered dish. It
does three things:

1. It asks a vision model what the photo shows. It tries every Gemini model in
   a fixed order, then every Groq vision model, and stops at the first model
   that answers with JSON.
2. It rejects the photo when the model says it is not food.
3. Otherwise it looks the dish up in RecipeDB and FlavorDB, unless the model
   calls it a packaged product. It then merges the databases' data with the
   model's estimate into one verdict: ingredients, calories, protein, fat, a
   trust score and a category.

Recipe ingredient fields arrive in several shapes. `parseIngredients` turns
each into a list of strings.

The model has five modules:

- `JsStrings` holds the JavaScript string operations the endpoint relies on:
  `trim`, `split`, `join`, `includes`, `startsWith`, `endsWith` and a
  one-character `replace`. It also proves their defining properties.
- `JsValues` holds loosely typed JSON values, truthiness, the `||` default
  idiom, `String(v)` and `parseFloat` on integer syntax.
- `IngredientParser` models `parseIngredients`.
- `VisionClassifier` models the provider cascade:
  - the data-URI prefix strip;
  - `tryGemini` and `tryGroq` as one loop method over an ordered list of
    backends, proved equal to a first-answer search;
  - `analyzeImageWithGemini`.
- `AuditHandler` models `POST`:
  - an imperative method `Post` whose local variables are reassigned step by
    step as in the source;
  - a decision function `Handle` that `Post` is proved to compute;
  - lemmas stating the decision table.

Several things outside the endpoint become parameters:

- The SDK calls are one oracle `call: (Backend, payload) -> Outcome`.
- `JSON.parse` of a model reply is an oracle `replyParse`.
- `JSON.parse` of a bracketed ingredient string is an oracle `parse`.
- The two databases are oracles from the dish name to a lookup outcome.
- The API keys are an input `ApiKeys`.

The attempts list and the queries list returned by the methods record which
external calls were made and in what order.

One might expect the ingredient string `"[a, b, c]"` to give `a`, `b`, `c`.
After quote normalisation (route.ts:354) it is still not JSON, so it falls to
the comma split at route.ts:358 and gives `"[a"`, `"b"`, `"c]"`
(`IngredientParser.RejectedListKeepsBrackets`). A model reply whose JSON is
falsy (`null`, `0`, `""`, `false`) is treated like no analysis at all
(route.ts:52 and :160): the default dish is looked up, and without database data it scores 50.

## Model

| member | source | states |
|---|---|---|
| JsStrings.ContainsIff | app/api/audit-dish/route.ts:259 | `includes` holds exactly when the text occurs at some index. |
| JsStrings.Contains | app/api/audit-dish/route.ts:259 | `includes`; `ContainsIff` states that it holds exactly when the text occurs at some index. |
| JsStrings.StartsWith | app/api/audit-dish/route.ts:352 | `startsWith`; `FirstPieceKeepsOpeningBracket` and `RejectedListKeepsBrackets` state it of the pieces of a bracketed string, and `TryGemini` of the `TODO` key test at route.ts:233. |
| JsStrings.EndsWith | app/api/audit-dish/route.ts:352 | `endsWith`; `EndsWithLastChar`, `LastPieceKeepsClosingBracket` and `RejectedListKeepsBrackets` state it of the pieces of a bracketed string. |
| JsStrings.IsJsWhitespace | app/api/audit-dish/route.ts:352 | The ECMAScript WhiteSpace and LineTerminator characters that `trim` removes here and at route.ts:358; `TrimIsInfix`, `TrimStartDropsLeadingWhitespace` and `TrimEndDropsTrailingWhitespace` state that exactly these are removed. |
| JsStrings.TrimStart | app/api/audit-dish/route.ts:352 | The result is no longer than the input, starts with non-whitespace and keeps the last character. |
| JsStrings.TrimEnd | app/api/audit-dish/route.ts:352 | The result is no longer than the input, ends with non-whitespace and keeps the first character. |
| JsStrings.Trim | app/api/audit-dish/route.ts:352 | The result is no longer than the input, and neither end is whitespace. |
| JsStrings.TrimStartDropsLeadingWhitespace | app/api/audit-dish/route.ts:352 | `trimStart` removes a prefix made only of whitespace. |
| JsStrings.TrimEndDropsTrailingWhitespace | app/api/audit-dish/route.ts:352 | `trimEnd` removes a suffix made only of whitespace. |
| JsStrings.TrimStartAt | app/api/audit-dish/route.ts:352 | `trimStart` starts at the first non-whitespace character. |
| JsStrings.TrimEndAt | app/api/audit-dish/route.ts:352 | `trimEnd` ends at the last non-whitespace character. |
| JsStrings.TrimStartsAt | app/api/audit-dish/route.ts:358 | The first character of `trim(s)` is the first non-whitespace character of `s`. |
| JsStrings.TrimEndsAt | app/api/audit-dish/route.ts:358 | The last character of `trim(s)` is the last non-whitespace character of `s`. |
| JsStrings.TrimIsInfix | app/api/audit-dish/route.ts:352 | `trim(s)` is an infix of `s`, and only whitespace is around it. |
| JsStrings.TrimIdempotent | app/api/audit-dish/route.ts:358 | Trimming twice gives the same as trimming once. |
| JsStrings.Split | app/api/audit-dish/route.ts:358 | `split` gives at least one piece, and no piece contains the separator. |
| JsStrings.Join | app/api/audit-dish/route.ts:348 | `join`, which `String` of an array uses; `JoinSplit` and `SplitJoin` state that it inverts `split`. |
| JsStrings.JoinSplit | app/api/audit-dish/route.ts:358 | Joining the pieces of a split with the separator gives back the string. |
| JsStrings.SplitJoin | app/api/audit-dish/route.ts:358 | Splitting a join of separator-free pieces gives back the pieces. |
| JsStrings.SplitFirstIsPrefix | app/api/audit-dish/route.ts:358 | The first piece is a prefix, followed by a separator unless it is the whole string. |
| JsStrings.SplitLastIsSuffix | app/api/audit-dish/route.ts:358 | The last piece is a suffix, preceded by a separator unless it is the whole string. |
| JsStrings.SplitCount | app/api/audit-dish/route.ts:358 | The number of pieces is one more than the number of separators. |
| JsStrings.ReplaceChar | app/api/audit-dish/route.ts:354 | A global one-character replace changes exactly the matching characters and keeps the length. |
| JsValues.Truthy | app/api/audit-dish/route.ts:160 | JavaScript truthiness; `Or` and `OrElse` state the logical-or defaults in its terms. |
| JsValues.Or | app/api/audit-dish/route.ts:137-138 | The logical-or default is one of its operands. It is truthy exactly when one of them is, and it is the left operand when that is truthy. |
| JsValues.OrElse | app/api/audit-dish/route.ts:61 | The logical-or default of an optional string is the fallback or the field itself. It is the field when that is non-empty, and it is non-empty when either is. |
| JsValues.NatToDecimal | app/api/audit-dish/route.ts:348 | A number prints as a non-empty run of digits with no leading zero. |
| JsValues.DecimalRoundTrip | app/api/audit-dish/route.ts:348 | Reading back the printed digits of a number gives the number. |
| JsValues.ToJsString | app/api/audit-dish/route.ts:348 | `String(v)`; `ParseFloatOfNumber` states that `parseFloat` reads back the printed form of every integer, and `NatToDecimal` gives that form. |
| JsValues.LeadingDigits | app/api/audit-dish/route.ts:138 | The longest run of digits at the front of a text, ending at the first non-digit. The modelled `ParseFloat` reads this integer part only; JavaScript would go on to read a fraction or an exponent (see `JsValues.ParseFloat` under Left out). |
| JsValues.ParseFloat | app/api/audit-dish/route.ts:138 | `parseFloat` on integer syntax; `ParseFloatOfNumber` states it inverts `String` on integers and `ParseFloatOfZeroText` gives the `'0'` default. |
| JsValues.ParseFloatOfNumber | app/api/audit-dish/route.ts:138 | `parseFloat` of any integer gives that integer back. |
| JsValues.ParseFloatOfZeroText | app/api/audit-dish/route.ts:138 | `parseFloat('0')`, the default for missing recipe numbers, is 0. |
| JsValues.ParseFloatOfUnsigned | app/api/audit-dish/route.ts:138 | Text starting with a digit reads as the value of its leading digits. |
| JsValues.LeadingDigitsStop | app/api/audit-dish/route.ts:138 | A run of digits followed by a non-digit is read exactly as that run. |
| JsValues.ParseFloatStopsAtPoint | app/api/audit-dish/route.ts:138 | The modelled `ParseFloat` reads digits followed by `.` as the integer part and stops at the `.`. JavaScript keeps the fraction and route.ts:138 rounds it; the `JsValues.ParseFloat` line under Left out records the gap. |
| JsValues.ParseFloatOfEnergyText | app/api/audit-dish/route.ts:138 | A recipe energy of `'250.4'` reads as 250. |
| IngredientParser.LooksLikeArray | app/api/audit-dish/route.ts:352 | The trimmed text starts with `[` and ends with `]`; `ParseIngredients` states that only such text is tried as JSON, and `RejectedListKeepsBrackets` and `UnclosedListSplitsOnCommas` state what happens otherwise. |
| IngredientParser.NormaliseQuotes | app/api/audit-dish/route.ts:354 | Quote normalisation keeps the length, replaces every `'` with `"` and changes nothing else. |
| IngredientParser.StringifyAll | app/api/audit-dish/route.ts:348 | The list is stringified element by element, keeping length and order. |
| IngredientParser.TrimAll | app/api/audit-dish/route.ts:358 | Every piece is trimmed, keeping length and order. |
| IngredientParser.CommaPieces | app/api/audit-dish/route.ts:358 | The result has 1 to 5 elements, `min(5, commas + 1)` of them. They are the first comma-separated pieces in order, each trimmed. |
| IngredientParser.ParseIngredients | app/api/audit-dish/route.ts:347-362 | A list gives `String` of each element. A bracketed string that parses gives the parsed list, uncapped. Any other string gives the comma pieces and never fails. Anything else gives `['Spices', 'Main Ingredient']`. |
| IngredientParser.FirstPieceKeepsOpeningBracket | app/api/audit-dish/route.ts:352-358 | When a bracketed string is split on commas, the trimmed first piece still starts with `[`. |
| IngredientParser.LastPieceKeepsClosingBracket | app/api/audit-dish/route.ts:352-358 | When a bracketed string is split on commas, the trimmed last piece still ends with `]`. |
| IngredientParser.RejectedListKeepsBrackets | app/api/audit-dish/route.ts:352-358 | A bracketed string whose JSON parse fails yields pieces that keep the brackets. The first starts with `[`, and the last ends with `]` when no piece is cut off. |
| IngredientParser.UnclosedListSplitsOnCommas | app/api/audit-dish/route.ts:352-358 | `"[a, b"` is not tried as JSON and gives `["[a", "b"]`. |
| VisionClassifier.BackendsOf | app/api/audit-dish/route.ts:184-196 | There is one backend per model, in the listed order. |
| VisionClassifier.GeminiKeyUsable | app/api/audit-dish/route.ts:233 | A missing, empty or `TODO` key disables Gemini; `TryGemini` and `CascadeOrder` state what is then tried. |
| VisionClassifier.GroqKeyUsable | app/api/audit-dish/route.ts:275 | A missing or empty key disables Groq; `TryGroq` and `CascadeOrder` state what is then tried. |
| VisionClassifier.CascadeOrder | app/api/audit-dish/route.ts:330-337 | Only the providers with a usable key contribute backends, and every Gemini backend comes before every Groq backend. |
| VisionClassifier.Payload | app/api/audit-dish/route.ts:248-296 | Gemini receives the bare base64 text. Groq receives it after `data:image/jpeg;base64,`. |
| VisionClassifier.IsRateLimitError | app/api/audit-dish/route.ts:259 | The rate-limit substrings of each provider (Gemini's here, Groq's at route.ts:313); `Failure` and `TryBackend` state that exactly these texts are classed as rate limits. |
| VisionClassifier.Failure | app/api/audit-dish/route.ts:257-264 | A failure is a rate limit exactly when the error text matches the provider's rate-limit words. |
| VisionClassifier.TryBackend | app/api/audit-dish/route.ts:241-265 | A backend answers exactly when the call replies and the reply parses. A thrown call or a syntax error is a failure, classed by its text. |
| VisionClassifier.FirstAnswer | app/api/audit-dish/route.ts:240-269 | The first-answer search; `FirstAnswerNoneIff` and `FirstAnswerIsFirst` state that it is the first answering backend's reply, and none exactly when no backend answers. |
| VisionClassifier.Attempts | app/api/audit-dish/route.ts:240-269 | The backends the loop tries; `AttemptsShape` states they are a prefix of the list in order, ending at the first answer or covering the whole list. |
| VisionClassifier.FirstAnswerNoneIff | app/api/audit-dish/route.ts:240-269 | The cascade has no answer exactly when no backend answers. |
| VisionClassifier.FirstAnswerIsFirst | app/api/audit-dish/route.ts:240-269 | The cascade's answer is the reply of the first backend that answers. |
| VisionClassifier.AttemptsShape | app/api/audit-dish/route.ts:240-269 | Backends are tried in order, each once, and no backend after the first answer is tried. Every backend is tried when none answers. |
| VisionClassifier.FirstAnswerAppend | app/api/audit-dish/route.ts:330-337 | Gemini then Groq answers as one cascade over both lists does. |
| VisionClassifier.AttemptsAppend | app/api/audit-dish/route.ts:330-337 | Gemini then Groq makes the attempts one cascade over both lists makes. |
| VisionClassifier.CascadeStep | app/api/audit-dish/route.ts:240-266 | One loop iteration either answers or moves on to the next backend. |
| VisionClassifier.TryModels | app/api/audit-dish/route.ts:240-323 | The loop of both providers (Gemini's at route.ts:240-269, Groq's at :282-323) returns the first answer and the attempts it made, as the first-answer search defines them. |
| VisionClassifier.TryGemini | app/api/audit-dish/route.ts:231-270 | With a missing, empty or `TODO` key it tries nothing. Otherwise it runs the loop over the Gemini models. |
| VisionClassifier.TryGroq | app/api/audit-dish/route.ts:273-324 | With a missing or empty key it tries nothing. Otherwise it runs the loop over the Groq models. |
| VisionClassifier.IsWordChar | app/api/audit-dish/route.ts:328 | The `\w` class: ASCII letters, digits and `_`; `WordRun` and `StripRemovesDataUriPrefix` state how the prefix match uses it. |
| VisionClassifier.WordRun | app/api/audit-dish/route.ts:328 | `\w+` takes the longest run of word characters. |
| VisionClassifier.IsDataUriPrefix | app/api/audit-dish/route.ts:328 | `data:image/`, one or more word characters, then `;base64,`; `StripRemovesDataUriPrefix` and `StripKeepsOnlyPlainText` state that exactly such a prefix is removed. |
| VisionClassifier.StripDataUriPrefix | app/api/audit-dish/route.ts:328 | The result is a suffix of the input. Anything removed is a `data:image/<word>;base64,` prefix. |
| VisionClassifier.StripRemovesDataUriPrefix | app/api/audit-dish/route.ts:328 | A text starting with a data-URI prefix loses exactly that prefix. |
| VisionClassifier.StripKeepsOnlyPlainText | app/api/audit-dish/route.ts:328 | The text is unchanged exactly when it does not start with a data-URI prefix. |
| VisionClassifier.Classify | app/api/audit-dish/route.ts:327-344 | The cascade's result; `GeminiAnswerWins` and `AllProvidersFail` state it is the first answer, Gemini before Groq, or `isFood: false` with the fixed error. |
| VisionClassifier.AnalyzeImage | app/api/audit-dish/route.ts:327-345 | It returns the first answer over the cascade order, or the unavailability result, with the attempts made. |
| VisionClassifier.GeminiAnswerWins | app/api/audit-dish/route.ts:331-332 | When a Gemini model answers, its answer is the result and no Groq model is tried. |
| VisionClassifier.AllProvidersFail | app/api/audit-dish/route.ts:339-344 | When every backend fails, every backend is tried and the result is `isFood: false` with the fixed error. |
| AuditHandler.RejectionReason | app/api/audit-dish/route.ts:57 | The rejection reason is never empty. |
| AuditHandler.DishName | app/api/audit-dish/route.ts:61 | The dish name is never empty. |
| AuditHandler.HasPhoto | app/api/audit-dish/route.ts:48 | `photoUrls && photoUrls[0]`; `Post` states that without it no backend is tried. |
| AuditHandler.IsNotFood | app/api/audit-dish/route.ts:54 | `isFood === false`; `RejectedIffNotFood` states that the reply is rejected exactly then. |
| AuditHandler.IsPackaged | app/api/audit-dish/route.ts:77 | `type === 'packaged'`; `PackagedTrustsModel` states that such a dish sends no request and trusts the model. |
| AuditHandler.ModelIngredients | app/api/audit-dish/route.ts:132 | The model's ingredients or `['Unknown']`, also at route.ts:144; `PackagedTrustsModel` and `ModelFallbackWithoutData` state where it is used. |
| AuditHandler.OrZero | app/api/audit-dish/route.ts:133 | The default of an optional number to 0, also behind route.ts:145 and :164-165; `ModelCalories` and `ZeroCaloriesOnlyWithoutEstimate` state where it is used. |
| AuditHandler.ModelCalories | app/api/audit-dish/route.ts:133 | The model's calories or 0, also at route.ts:145 and :150; `ZeroCaloriesOnlyWithoutEstimate` states the override it drives. |
| AuditHandler.ModelProtein | app/api/audit-dish/route.ts:164 | The model's protein or 0; `FlavorAliasWhenNoRecipe` and `ModelFallbackWithoutData` state it is used without a recipe. |
| AuditHandler.ModelFat | app/api/audit-dish/route.ts:165 | The model's fat or 0; `FlavorAliasWhenNoRecipe` and `ModelFallbackWithoutData` state it is used without a recipe. |
| AuditHandler.RecipeCalories | app/api/audit-dish/route.ts:138 | `parseFloat(Energy or Calories or '0')`; `RecipeDataWins` and `RecipeWithoutEnergyUsesEstimate` state how it sets the calories. |
| AuditHandler.AnalysisOf | app/api/audit-dish/route.ts:43-63 | `analysisResult`: the classifier result with a truthy photo and a truthy reply, `null` otherwise; `UnavailableProvidersReject` and `Post` use it. |
| AuditHandler.Lookups | app/api/audit-dish/route.ts:77-121 | A packaged dish sends no request; otherwise RecipeDB is asked, then FlavorDB unless RecipeDB threw. A recipe or entity is found exactly when its response was ok with a truthy entry, and it is that entry. |
| AuditHandler.FlavorFound | app/api/audit-dish/route.ts:113-114 | The FlavorDB body of an ok response, nothing otherwise; `Lookups` states what it finds. |
| AuditHandler.FetchSources | app/api/audit-dish/route.ts:77-121 | The database step finds what the lookups define and sends the requests they list. |
| AuditHandler.CombineData | app/api/audit-dish/route.ts:128-152 | The merge picks the ingredients and calories by the priority order, with the calorie fallback. |
| AuditHandler.Ingredients | app/api/audit-dish/route.ts:128-147 | The ingredient priority; `PackagedTrustsModel`, `RecipeDataWins`, `FlavorAliasWhenNoRecipe` and `ModelFallbackWithoutData` state its four branches. |
| AuditHandler.BaseCalories | app/api/audit-dish/route.ts:129-147 | The calorie source chosen like the ingredients: `RecipeDataWins` and `RecipeWithoutEnergyUsesEstimate` state the recipe branch, `PackagedTrustsModel`, `FlavorAliasWhenNoRecipe` and `ModelFallbackWithoutData` the other three. |
| AuditHandler.FinalCalories | app/api/audit-dish/route.ts:149-152 | The zero-calorie fallback; `ZeroCaloriesOnlyWithoutEstimate` states that only a zero is replaced, by the model's estimate. |
| AuditHandler.Freshness | app/api/audit-dish/route.ts:159 | The model's freshness when truthy, else `'fresh'`; `NoAnalysisIsAccepted` states the default. |
| AuditHandler.Score | app/api/audit-dish/route.ts:160 | The trust score; `ScoreNamesTheSource` states each of 92, 88, 85 and 50 holds exactly when its source case does. |
| AuditHandler.RecipeName | app/api/audit-dish/route.ts:163 | The recipe title, else the FlavorDB alias, else the dish name; `RecipeDataWins`, `FlavorAliasWhenNoRecipe` and `ModelFallbackWithoutData` state the three cases. |
| AuditHandler.Protein | app/api/audit-dish/route.ts:164 | The recipe's protein, else the model's; `RecipeDataWins`, `FlavorAliasWhenNoRecipe` and `ModelFallbackWithoutData` state it. |
| AuditHandler.Fat | app/api/audit-dish/route.ts:165 | The recipe's fat, else the model's; stated by the same three lemmas as `Protein`. |
| AuditHandler.Category | app/api/audit-dish/route.ts:166 | FlavorDB's category when non-empty, else the packaged or general one; `PackagedTrustsModel`, `RecipeDataWins`, `FlavorAliasWhenNoRecipe` and `ModelFallbackWithoutData` state it. |
| AuditHandler.Handle | app/api/audit-dish/route.ts:54-166 | The whole decision after classification; the `AuditHandler` lemmas below state its decision table, and `Post` is proved to compute it. |
| AuditHandler.Post | app/api/audit-dish/route.ts:43-166 | The reply and the requests equal the decision table applied to the classifier result. The attempts are the cascade's when there is a photo, and none otherwise. |
| AuditHandler.RejectedIffNotFood | app/api/audit-dish/route.ts:54-60 | The reply is rejected exactly when `isFood === false`. A rejection carries the reason chain, refund 0 and no database request. A verified reply names the dish. |
| AuditHandler.PackagedTrustsModel | app/api/audit-dish/route.ts:77-166 | A packaged product sends no request. It takes the model's ingredients and calories, score 85 and the packaged category. |
| AuditHandler.PreparedQueriesRecipeThenFlavor | app/api/audit-dish/route.ts:81-121 | Any other dish asks RecipeDB, then FlavorDB unless RecipeDB threw. |
| AuditHandler.ScoreNamesTheSource | app/api/audit-dish/route.ts:160 | The score is in {50, 85, 88, 92}. Each value holds exactly when its source case holds. |
| AuditHandler.RecipeDataWins | app/api/audit-dish/route.ts:136-166 | A found recipe supplies the ingredients, the name, the protein and the fat. Its parsed `Energy`, `Calories` or `'0'` gives the calories unless it is 0, when the model's estimate is used. The category is FlavorDB's when an entity with a non-empty one was found, else "General Food". |
| AuditHandler.FlavorAliasWhenNoRecipe | app/api/audit-dish/route.ts:140-166 | Without a recipe, a FlavorDB entity gives the alias (or dish name) as the one ingredient and the name, score 88, its category or "General Food", and the model's calories, protein and fat. |
| AuditHandler.ModelFallbackWithoutData | app/api/audit-dish/route.ts:143-166 | When neither database found anything, a prepared dish takes the model's ingredients (or `['Unknown']`), calories, protein and fat, the dish name, "General Food", and score 85, or 50 with no classifier result. |
| AuditHandler.ZeroCaloriesOnlyWithoutEstimate | app/api/audit-dish/route.ts:149-152 | Zero calories are replaced by the model's estimate, and any other value is kept. |
| AuditHandler.RecipeWithoutEnergyUsesEstimate | app/api/audit-dish/route.ts:136-152 | A recipe with no `Energy` and no `Calories` takes the model's calorie estimate. |
| AuditHandler.UnavailableProvidersReject | app/api/audit-dish/route.ts:54-60 | When every backend fails, the photo is rejected with the unavailability error, refund 0 and no request. |
| AuditHandler.NoAnalysisIsAccepted | app/api/audit-dish/route.ts:43-160 | With no classifier result the reply is verified, under the default dish and freshness, with a score of 50, 88 or 92. |

## Left out

- The `fetch` calls, the Gemini and Groq SDKs and `NextResponse` are left out. They are I/O and foreign code. Their outcomes are oracle parameters.
- The HTTP 500 reply of the outer `catch` is left out, with every throw that reaches it. These are `req.json()` on a bad body; `encodeURIComponent(dishName)` at route.ts:85, which sits before the database `try` and throws on a dish name holding a lone surrogate; `base64Data.replace` at route.ts:328 when the first photo is truthy but not a string; and the SDK constructors at route.ts:238 and :280, which sit outside the per-model `try`.
- Strings are sequences of Unicode scalar values, not of UTF-16 code units, so a lone surrogate cannot be expressed, and the photo is a string by its type.
- Of the request body, only the first photo URL is modelled. `orderId` is only logged.
- Environment variables become the `ApiKeys` input. The proxy URL and its bearer token are not modelled.
- `encodeURIComponent` of the dish name is left out. Queries record the raw dish name.
- `console` logging is left out, except for one effect: the log of `recipe.Recipe_title` at route.ts:100 throws when RecipeDB's first match is `null` or `undefined`. The catch then skips FlavorDB, and the model counts that search as `Threw`. The attempts list keeps only each backend's verdict, which is where the source logs a rate limit and another error differently.
- The prompt text and the SDK options are left out: temperature, token limit, response format and MIME type.
- Every number is an integer, and `NaN` is the only non-integer value modelled.
- JsValues.ParseFloat: fractions, exponents and `Infinity` are not modelled. `Math.round` is the identity on integers, so `"12.5"` reads as 12 where the source gives 13 for calories and 12.5 for protein. This also changes the zero-calorie fallback: an `Energy` of `"0.6"` rounds to 1 in the source, so the recipe's value is kept, while the model reads it as 0 and takes the vision model's estimate instead.
- JsValues.ToJsString: numbers of 1e21 or more, which JavaScript prints in exponent form, are printed here in full.
- IngredientParser.ParseIngredients: `JSON.parse` of a bracketed string is an oracle returning a list of strings. An array with non-string elements, which the source returns as it is, is not modelled.
- The fields of a model's JSON reply, RecipeDB's `Recipe_title`, and FlavorDB's `entity_alias_readable` and `category_readable` are taken as the strings (or numbers, or lists) the source's interfaces and usage expect. A field of another JSON type is not modelled. Examples are a string `calories`, or a truthy non-string alias such as `42`, which the source would put into the ingredient list and the recipe name as it is.
- `photoUrls` given as a string rather than a list is not modelled. The source would then classify its first character.

