# Season analysis — a verified model of the core

The system is a personal colour-season advisor. Its backend is Node/Express. It chats with a
generative model about the visitor's colouring. It extracts the model's final season
analysis from the conversation and records it on the user's account. It also keeps accounts,
password recovery and a list of favourite colours. Its Vue frontend holds the signed-in
session, guards the pages that need it, shapes API answers and builds the recovery e-mail.

This project models the logic of that system in Dafny and proves what the code promises:

- **Chat and analysis extraction** (`GeminiService`).
  - The prompt is assembled from the persona, the earlier turns and the new message.
  - The model endpoint is called at most twice, and only a 503 is retried.
  - The `shouldAnalyze` flag is set when the reply contains the sentinel.
  - A backward scan over the history returns what the most recent parseable advisor turn
    yields. Each turn goes through the cleanup pipeline: cut after the sentinel, strip code
    fences, trim, then take the greedy `{…}` span.
- **Accounts and favourite colours** over an in-memory copy of the three tables (`Tables`,
  `UserService`, `UserController`, `AiController`).
  - Input guards, the e-mail and `#RRGGBB` patterns, and the season whitelist.
  - The recovery-token lifecycle and the first-match token lookup.
  - Duplicate-free favourite colours, and the non-fatal season write after an analysis.
- **Decision tables.**
  - Request validators (`RequestValidation`) and response builders (`ApiResponse`).
  - The mapping from a controller's outcome to an HTTP status and message (`UserRoutes`).
  - The page guard (`RouterGuard`) and the `required` validator (`FormValidation`).
  - `apiCall`, the theme and toast services, and the recovery template (`FrontendServices`).
  - The authentication composable's session and message state (`UseAuth`).

Shared modules:

- `Js` models the JavaScript values the code sees: JSON bodies, parsed model output and
  storage items. It also gives truthiness, `String()`, property access and `||`.
- `Text` models the string built-ins the code uses: `includes`, `split`/`join`, literal
  global `replace`, `trim`, `toLowerCase` and decimal conversion.
- `Wrappers` holds `Option`, `Result` and `Call`. `Call` is a value returned, or an exception
  thrown with its message.

Everything outside the program is a parameter:

- `JSON.parse`, `JSON.stringify`, bcrypt verification and JWT signing are functions passed in.
- The model endpoint is the sequence of its two possible replies.
- The random token, the hashes, the clock and the mail result are values passed in.
- A database failure inside a `try` block of a controller is a flag passed in. Queries outside such a block cannot fail in the model (see "Left out").

Stateful code is modelled with state:

- The tables are a `Store` class whose methods update its sequences.
- The theme and toast services and the composable's state are classes with the source's fields.
- The loops (`forEach` prompt building, the retry loop, the backward scan, the token lookup,
  the form validation) are methods with loop invariants. Each is proved against a
  specification function.

## Model

| member | source | states |
|---|---|---|
| Js.OrDefault | Backend/service/helpers/api-response.helper.js:9 | a default parameter replaces exactly `undefined` |
| Js.Or | Frontend/src/composables/useAuth.js:38 | `a \|\| b` is `a` when `a` is truthy, else `b` |
| Js.Prop | Backend/service/middlewares/request-validation.middleware.js:13 | a property of a non-object is `undefined`; a key the object has gives its field, a key it lacks gives `undefined` |
| Js.CodeUnits | Backend/controllers/user.controller.js:30 | `.length` counts UTF-16 code units: between one and two per character, exactly one each when no character is above U+FFFF |
| Js.Truthy | Backend/service/middlewares/request-validation.middleware.js:13 | a truthy value is never `null` or `undefined`; every array and object is truthy |
| Js.ToStr | Backend/service/ai/gemini.service.js:129 | `String()` of a string is itself, of `[]` is `''`, of a one-string array is that string |
| Js.LengthBelow | Backend/controllers/user.controller.js:49 | only strings and arrays have a length; a string below the bound in code units is below it in characters, and one under half the bound in characters is below it in code units |
| Text.IndexOfFrom | Backend/service/ai/gemini.service.js:132 | a found index is at or after the start and the pattern occurs there |
| Text.IndexOfFromIsFirst | Backend/service/ai/gemini.service.js:132 | the found index is the first occurrence; none means no occurrence at all |
| Text.ContainsIffOccurs | Backend/service/ai/gemini.service.js:93 | `includes` holds iff the pattern occurs at some index |
| Text.ContainsMiddle | Backend/service/ai/gemini.service.js:93 | a string built around the pattern includes it |
| Text.Split | Backend/service/ai/gemini.service.js:139 | `split` gives at least one part |
| Text.JoinSplit | Backend/service/ai/gemini.service.js:139-140 | joining the split parts with the separator gives back the string |
| Text.AfterFirstOccurrence | Backend/service/ai/gemini.service.js:139-140 | `split(sep).slice(1).join(sep)` is the suffix after the first separator |
| Text.IndexOfAfterFreePrefix | Backend/service/ai/gemini.service.js:137-140 | the first occurrence after a prefix free of the pattern's first letter is right after that prefix |
| Text.SplitAtTrailing | Backend/service/ai/gemini.service.js:139 | a string ending in its only separator splits into itself and `""` |
| Text.SplitFree | Backend/service/ai/gemini.service.js:139 | a string without the separator splits into itself |
| Text.SubstitutionLiteral | Backend/service/business/user.service.js:225-226 | a replacement without `$` is inserted literally |
| Text.ReplaceInIsSplitJoin | Backend/service/business/user.service.js:225-226 | the left-to-right global replace equals split-then-join for a `$`-free replacement |
| Text.ReplaceAllIsSplitJoin | Backend/service/business/user.service.js:225-226 | `replace(/pat/g, rep)` is `split(pat).join(rep)` for a `$`-free replacement |
| Text.ReplaceAllAbsent | Backend/service/business/user.service.js:225-226 | a global replace of an absent pattern changes nothing |
| Text.ReplaceFirst | Frontend/src/services/index.js:248 | a string-pattern `replace` changes only the first occurrence, and nothing without one |
| Text.TrimStartDropsLeadingSpace | Frontend/src/composables/useFormValidation.js:8 | the leading trim keeps a suffix, drops only whitespace and leaves none in front |
| Text.TrimEndDropsTrailingSpace | Frontend/src/composables/useFormValidation.js:8 | the trailing trim keeps a prefix, drops only whitespace and leaves none at the end |
| Text.TrimTrimmed | Backend/service/ai/gemini.service.js:147 | a string without whitespace at either end is its own trim |
| Text.TrimPadded | Backend/service/ai/gemini.service.js:147 | trimming whitespace padding gives back the padded text |
| Text.TrimStartPadded | Backend/service/ai/gemini.service.js:147 | leading whitespace padding is removed exactly |
| Text.TrimEndPadded | Backend/service/ai/gemini.service.js:147 | trailing whitespace padding is removed exactly |
| Text.TrimEmptyIffAllSpace | Frontend/src/composables/useFormValidation.js:8 | the trim is empty iff the string is all whitespace |
| Text.ToLowerAscii | Backend/service/ai/gemini.service.js:161 | `toLowerCase` keeps the length and lowers each letter |
| Text.NatToDecimalDigits | Backend/service/ai/gemini.service.js:129 | `String()` of a natural number is a non-empty digit string |
| ApiResponse.Success | Backend/service/helpers/api-response.helper.js:9-20 | status as given (default 200); without truthy data exactly `success: true` and `message` (default `'Success'`) |
| ApiResponse.SuccessMergesData | Backend/service/helpers/api-response.helper.js:15-17 | object data keys are merged after the envelope and override it; other keys are the envelope's |
| ApiResponse.AssignIndexedKeeps | Backend/service/helpers/api-response.helper.js:16 | `Object.assign` of an array or string keeps every existing key |
| ApiResponse.SuccessHasEnvelope | Backend/service/helpers/api-response.helper.js:10-17 | a success body always has `success` and `message` |
| ApiResponse.Error | Backend/service/helpers/api-response.helper.js:22-33 | `success: false`, the message (default `'Error'`), status (default 400), and `errorCode` present iff truthy |
| ApiResponse.ServerError | Backend/service/helpers/api-response.helper.js:35-41 | always 500 with exactly `success: false` and `'Server error occurred'` |
| ApiResponse.ServerErrorIgnoresErr | Backend/service/helpers/api-response.helper.js:35-40 | the error argument does not affect the response |
| ApiResponse.ValidationError | Backend/service/helpers/api-response.helper.js:43-45 | 400 with `VALIDATION_ERROR` and the message (default `'Validation failed'`) |
| ApiResponse.ValidationErrorIsError | Backend/service/helpers/api-response.helper.js:43-45 | `validationError(m)` equals `error(m, 400, 'VALIDATION_ERROR')` |
| RequestValidation.Missing | Backend/service/middlewares/request-validation.middleware.js:13 | the missing fields are a filter of the required ones |
| RequestValidation.MissingIffFalsy | Backend/service/middlewares/request-validation.middleware.js:13 | a field is missing iff it is required and its body value is falsy |
| RequestValidation.ValidateRequired | Backend/service/middlewares/request-validation.middleware.js:10-24 | a nullish body with fields to check throws; any response is the validation error |
| RequestValidation.ValidateRequiredNextIffAllPresent | Backend/service/middlewares/request-validation.middleware.js:13-22 | `next()` runs iff every field is truthy, otherwise the 400 validation error is sent |
| RequestValidation.ValidateEmailTemplate | Backend/service/middlewares/request-validation.middleware.js:30-52 | `next()` iff template, subject and html are truthy; otherwise 400 `'Email template is required'` |
| RequestValidation.EmailTemplateTextOptional | Backend/service/middlewares/request-validation.middleware.js:35 | the template's `text` does not affect the decision |
| Tables.FirstWhere | Backend/service/business/user.service.js:26-32 | `findOne` returns a row that satisfies the condition |
| Tables.FirstWhereIsFirst | Backend/service/business/user.service.js:26-32 | it is the first such row in table order; none means no row matches |
| Tables.ColorsOf | Backend/controllers/user.controller.js:217-221 | the user's colours are at most the table's rows |
| Tables.ColorsOfIff | Backend/controllers/user.controller.js:217-221 | a colour is listed iff the (user, colour) row is in the table |
| Tables.ColorsOfAppend | Backend/controllers/user.controller.js:215-221 | the listing of appended rows is the concatenation of the listings |
| Tables.ColorsOfOther | Backend/controllers/user.controller.js:217-221 | another user's row adds nothing to the listing |
| Tables.WithSeason | Backend/controllers/ai.controller.js:102-106 | the season write keeps the user's key and login name |
| Tables.Store.constructor | Backend/service/business/user.service.js:18 | the store holds exactly the given tables |
| Tables.Store.UpdateUser | Backend/service/business/user.service.js:97-100 | `user.update` replaces exactly that row; the other tables are unchanged |
| Tables.Store.SetSeasonWhere | Backend/controllers/ai.controller.js:102-110 | `User.update(…, where)` sets season and date on exactly the matching rows |
| Tables.Store.CreateUser | Backend/service/business/user.service.js:71-76 | `User.create` appends one row |
| Tables.Store.CreateFavorite | Backend/controllers/user.controller.js:215 | `FavoriteColor.create` appends one row |
| Tables.Store.DestroyFavorite | Backend/controllers/user.controller.js:243 | `record.destroy` removes exactly that row |
| UserService.SeasonOf | Backend/service/business/user.service.js:29 | the `colorSeason` association is a season row with the user's season id |
| UserService.SeasonOfKey | Backend/service/business/user.service.js:29 | with unique season ids it is exactly the row with that id |
| UserService.Strings | Backend/service/business/user.service.js:212 | `map(c => c.color_hex)` keeps length and order |
| UserService.FormatUser | Backend/service/business/user.service.js:202-218 | exactly the seven client fields; `colorSeason` null iff no association; `favoriteColors` `[]` without favourites |
| UserService.FormatCreatedUser | Backend/service/business/user.service.js:202-218 | the created user has the same keys as a formatted row, with `colorAnalysisDate` undefined, `colorSeason` null and no favourites |
| UserService.Login | Backend/service/business/user.service.js:23-56 | succeeds iff the first user of that name exists and the password verifies against its hash; the returned user is that row loaded with season and favourites; every failure is `INVALID_CREDENTIALS`; the token signs the returned user |
| UserService.LoginSucceedsIffPasswordVerifies | Backend/service/business/user.service.js:26-44 | with unique names, login succeeds iff a user of that name exists and the password verifies against its hash |
| UserService.CheckUserExists | Backend/service/business/user.service.js:169-179 | `USERNAME_TAKEN` iff the name is taken, `EMAIL_TAKEN` iff only the e-mail is, nothing iff neither |
| UserService.Register | Backend/service/business/user.service.js:61-83 | a duplicate throws and creates nothing; otherwise exactly one row is appended and returned formatted, with `colorAnalysisDate` undefined because the created instance has no such attribute |
| UserService.PrepareEmailContent | Backend/service/business/user.service.js:223-234 | succeeds iff html (and a truthy text) are strings; the html, and a truthy text, are the template with every `{recoveryLink}` replaced by the link and every `{userFullName}` by the name (`'Felhasználó'` when undefined); a falsy text gives `''` |
| UserService.NameArg | Backend/service/business/user.service.js:223 | an undefined name becomes `'Felhasználó'`; a string name is used as given |
| UserService.FillIsSplitJoin | Backend/service/business/user.service.js:224-231 | every `{recoveryLink}`, then every `{userFullName}`, is replaced |
| UserService.FillWithoutPlaceholders | Backend/service/business/user.service.js:224-231 | a text without placeholders is unchanged |
| UserService.ForgotPassword | Backend/service/business/user.service.js:88-115 | unknown e-mail: success, no write, no mail; known: hash and now + 24 h stored, one mail, `EMAIL_FAILED` iff the mailer failed |
| UserService.FindUserByToken | Backend/service/business/user.service.js:184-197 | the loop returns the first user in table order whose recovery hash verifies |
| UserService.TokenOwner | Backend/service/business/user.service.js:184-197 | the owner is the first user in table order whose recovery hash verifies the token; none iff no user's hash does |
| UserService.Expired | Backend/service/helpers/security.helper.js:86-88 | a token is not expired up to its expiry time; a missing expiry is the epoch, so every later time is expired |
| UserService.ResetClearsToken | Backend/service/business/user.service.js:131-135 | after a reset the row matches no token |
| UserService.ResetPassword | Backend/service/business/user.service.js:120-138 | `INVALID_TOKEN` / `TOKEN_EXPIRED` change nothing; success sets the hash and clears both recovery fields |
| UserService.ChangePassword | Backend/service/business/user.service.js:143-164 | unknown user or wrong password changes nothing; success replaces only the hash |
| UserController.IsEmailSound | Backend/controllers/user.controller.js:60-62 | the executable e-mail check only accepts matches of `^[^\s@]+@[^\s@]+\.[^\s@]+$` |
| UserController.IsEmailComplete | Backend/controllers/user.controller.js:60-62 | every match of the pattern is accepted |
| UserController.IsEmailMatchesPattern | Backend/controllers/user.controller.js:60-62 | the check accepts exactly the pattern's matches |
| UserController.Login | Backend/controllers/user.controller.js:23-38 | missing field gives `USERNAME_AND_PASSWORD_REQUIRED`; short name (<3) or password (<6) gives `INVALID_CREDENTIALS_FORMAT` before the service; otherwise the service's answer for the `String()` values |
| UserController.RegisterCheck | Backend/controllers/user.controller.js:43-64 | the checks run in the order missing field, short user name, short password, e-mail pattern, and the result is the code of the first check that fails, or none when all pass |
| UserController.RegisterCheckOrder | Backend/controllers/user.controller.js:45-64 | a later check can only fail when every earlier check passed, and the registration passes exactly when all four checks hold |
| UserController.IsEmail | Backend/controllers/user.controller.js:60-62 | an accepted address has at least five characters and no whitespace |
| UserController.IsHexColor | Backend/controllers/user.controller.js:199-200 | an accepted colour is exactly seven code units long |
| UserController.Register | Backend/controllers/user.controller.js:43-67 | a failed check returns its code and writes nothing; after passing checks a taken name or e-mail throws the service's message and writes nothing, otherwise exactly the new row is appended and returned formatted, with `colorAnalysisDate` undefined |
| UserController.ResetPasswordCheck | Backend/controllers/user.controller.js:75-81 | a falsy token or password gives `TOKEN_AND_PASSWORD_REQUIRED`; passes iff both are truthy and the password has at least 6 code units |
| UserController.ResetPassword | Backend/controllers/user.controller.js:73-84 | a failed check returns its code and writes nothing; otherwise `INVALID_TOKEN` without a token owner, `TOKEN_EXPIRED` for an expired one, else only the owner gets the new hash with recovery fields cleared |
| UserController.ChangePasswordCheck | Backend/controllers/user.controller.js:112-118 | a falsy user id, current or new password gives `MISSING_REQUIRED_FIELDS`; passes iff all three are truthy and the new password has at least 6 code units |
| UserController.ChangePassword | Backend/controllers/user.controller.js:110-121 | a failed check returns its code and writes nothing; otherwise `USER_NOT_FOUND`, `INVALID_CURRENT_PASSWORD` when the current password does not verify, else only that user gets the new hash |
| UserController.FormatUserWithSeason | Backend/controllers/user.controller.js:11-21 | the six profile fields; `colorSeason` null iff no association |
| UserController.FormatUserWithSeasonIsFormatUser | Backend/controllers/user.controller.js:11-21 | it is `formatUser` without `favoriteColors` |
| UserController.UpdateColorSeason | Backend/controllers/user.controller.js:145-190 | succeeds iff the four guards pass and the update does not throw; each failing guard gives its own code (`MISSING_REQUIRED_FIELDS`, `INVALID_SEASON`, `USER_NOT_FOUND`, `SEASON_NOT_FOUND`, `UPDATE_FAILED`); then only that user gets the season id and date |
| UserController.SeasonWhitelist | Backend/controllers/user.controller.js:151-152 | accepted seasons are exactly the four strings |
| UserController.Removed | Backend/controllers/user.controller.js:242-243 | destroying a found record never grows the table |
| UserController.RemovedAbsent | Backend/controllers/user.controller.js:242-243 | removing an absent colour leaves the table as it is |
| UserController.RemovedOneCopy | Backend/controllers/user.controller.js:242-243 | exactly one copy is destroyed |
| UserController.AddThenRemove | Backend/controllers/user.controller.js:212-243 | adding a new colour and then removing it restores the table |
| UserController.AddFavoriteColor | Backend/controllers/user.controller.js:192-227 | guard order; with the guards passed and the user found: a throw gives `UPDATE_FAILED`, an existing row gives `COLOR_ALREADY_EXISTS`, success iff neither; success appends one row and returns the user's full list |
| UserController.RemoveFavoriteColor | Backend/controllers/user.controller.js:229-255 | unknown user gives `USER_NOT_FOUND`; for a found user success iff the queries do not throw (else `UPDATE_FAILED`); at most one row is destroyed; an absent colour is a successful no-op |
| UserController.GetFavoriteColors | Backend/controllers/user.controller.js:257-270 | `USER_NOT_FOUND` iff no user; otherwise exactly that user's colours |
| AiController.HistoryOrEmpty | Backend/controllers/ai.controller.js:25 | a falsy history becomes `[]` |
| AiController.ChatEndpoint | Backend/controllers/ai.controller.js:14-37 | nullish body gives 500; falsy message gives 400 `MESSAGE_REQUIRED` with no model call; service failure gives 500; 200 iff the message is truthy, the history builds a prompt and the model answers (first call, or the retry after a 503); the response is the answering call's text |
| AiController.ChatWithAI | Backend/controllers/ai.controller.js:14-37 | a falsy message gives 400 without calls; 200 iff the model answers a buildable prompt, with the answering call's text; otherwise 400 or the server error; success carries `'Chat response generated'` |
| AiController.ChatWithAIGuest | Backend/controllers/ai.controller.js:42-65 | the same, with `'Guest chat response generated'` |
| AiController.AnalyzeCheck | Backend/controllers/ai.controller.js:77-83 | the history is checked before `accountId`, with their 400 codes |
| AiController.AnalyzeColorType | Backend/controllers/ai.controller.js:72-127 | failed checks and failed extraction write nothing; success returns the analysis whether or not the season write happens |
| AiController.SeasonFor | Backend/controllers/ai.controller.js:97-99 | a found season row has exactly the analysis's season name; none means no row has it |
| AiController.SeasonWriteTouchesOneUser | Backend/controllers/ai.controller.js:102-110 | with unique keys only the user with that `account_id` changes |
| UserRoutes.Guarded | Backend/routers/api/user/index.js:18 | the handler's answer iff every required field is truthy, otherwise the validation error |
| UserRoutes.LoginRoute | Backend/routers/api/user/index.js:26-42 | failures are 401, with the credentials message only for `INVALID_CREDENTIALS`; success is `'Login successful'` with `redirect: '/dashboard'`, the token and the user |
| UserRoutes.RegisterRouteAsWritten | Backend/routers/api/user/index.js:54-65 | a throw is 409 with `'Username already taken'` for `USERNAME_TAKEN` and `'Email already in use'` otherwise; any returned result is 200 `success: true` with `'Registration successful'` and its user |
| UserRoutes.RegisterRouteReportsRejectedRegistration | Backend/routers/api/user/index.js:54-65 | a two-letter user name passes validation, is rejected by the controller, and is reported as a success |
| UserRoutes.RegisterRoute | Backend/routers/api/user/index.js:54-65 | corrected: a returned rejection is 400 with its code |
| UserRoutes.RegisterRouteSuccessIffCreated | Backend/routers/api/user/index.js:54-65 | the corrected route reports success iff a user was created |
| UserRoutes.ForgotPasswordRoute | Backend/routers/api/user/index.js:76-84 | 500 iff thrown or `EMAIL_FAILED`: a throw is the server error, `EMAIL_FAILED` is `'Email sending failed'`; otherwise the sent message |
| UserRoutes.ResetPasswordRoute | Backend/routers/api/user/index.js:95-102 | failures are 400, `'Invalid or expired token'` iff `INVALID_TOKEN`, else `'Token expired'` |
| UserRoutes.ProfileRoute | Backend/routers/api/user/index.js:112-118 | 404 `'User not found'` without a user, else 200 `'Profile retrieved'` with it |
| UserRoutes.ChangePasswordRoute | Backend/routers/api/user/index.js:129-142 | a short new password is 400 before the controller; `INVALID_CURRENT_PASSWORD` is 400 `'Current password is incorrect'`, other failures 500 with the server-error message |
| UserRoutes.ChangePasswordShortIgnoresController | Backend/routers/api/user/index.js:129-131 | for a short password the controller's answer does not matter |
| UserRoutes.DeleteAccountRoute | Backend/routers/api/user/index.js:152-156 | 500 with the server error message iff the controller failed; otherwise 200 `success: true` with `'Account deleted successfully'` |
| UserRoutes.ColorSeasonRoute | Backend/routers/api/user/index.js:169-178 | `INVALID_SEASON` is 400 `'Invalid season'`, other failures 500 with the server-error message; success carries the user |
| UserRoutes.FavoriteColorsRoute | Backend/routers/api/user/index.js:188-194 | failure 500 `'Failed to get favorite colors'`; success carries the list |
| UserRoutes.AddFavoriteColorRoute | Backend/routers/api/user/index.js:207-219 | `COLOR_ALREADY_EXISTS` is 409 `'Color already in favorites'`, `INVALID_HEX_COLOR` 400 `'Invalid hex color format'`, every other failure 400 with the server-error message; success carries the list |
| UserRoutes.RemoveFavoriteColorRoute | Backend/routers/api/user/index.js:230-240 | failure 500 `'Failed to remove favorite color'`; success carries the list |
| GeminiService.RenderPrefix | Backend/service/ai/gemini.service.js:43-49 | the rendered prefix depends only on the turns it covers |
| GeminiService.RenderAppend | Backend/service/ai/gemini.service.js:43-49 | rendering concatenated histories concatenates the renderings |
| GeminiService.FormatTurnsSnoc | Backend/service/ai/gemini.service.js:43-49 | one more turn appends exactly its line |
| GeminiService.RenderOne | Backend/service/ai/gemini.service.js:43-49 | a single turn renders as its line |
| GeminiService.RenderStep | Backend/service/ai/gemini.service.js:43-49 | each loop step appends the next turn's line |
| GeminiService.FormatTurnsSkipsOtherRoles | Backend/service/ai/gemini.service.js:44-48 | a turn of any other role adds nothing |
| GeminiService.FormatTurnsOneMore | Backend/service/ai/gemini.service.js:44-48 | a user turn adds `Felhasználó: c\n`, an assistant turn `Színtanácsadó: c\n` |
| GeminiService.AppendTurn | Backend/service/ai/gemini.service.js:44-48 | the `prompt +=` step appends the turn's line |
| GeminiService.BuildPrompt | Backend/service/ai/gemini.service.js:40-52 | the loop completes iff the history is an array without nullish turns; then the prompt is header, turns in order, message and advisor label |
| GeminiService.HistoryArg | Backend/service/ai/gemini.service.js:32 | an `undefined` history is the empty array; any other is passed as is |
| GeminiService.Chat | Backend/service/ai/gemini.service.js:32-109 | an `undefined` history counts as `[]`; at most two calls with the same prompt, a second iff the first failed with 503; success returns the text unchanged with `shouldAnalyze` iff it contains the sentinel; a failed model call carries that call's error message, and a history that cannot be rendered gives a failure without a message |
| GeminiService.AfterSentinelIsSuffix | Backend/service/ai/gemini.service.js:137-141 | the text after the first sentinel, later ones kept |
| GeminiService.SpaceRun | Backend/service/ai/gemini.service.js:145 | the `\s*` run fits in the text |
| GeminiService.JsonFenceLength | Backend/service/ai/gemini.service.js:145 | a match of the fence-with-`json` pattern starts with the fence |
| GeminiService.StripJsonFences | Backend/service/ai/gemini.service.js:145 | removing the matches never grows the text |
| GeminiService.StripFences | Backend/service/ai/gemini.service.js:144-147 | the cleaned text is empty or neither starts nor ends with whitespace |
| GeminiService.BraceCandidate | Backend/service/ai/gemini.service.js:150-152 | the candidate is never longer than the text, and is either the whole text or a span from a `{` to a `}` |
| GeminiService.Normalize | Backend/service/ai/gemini.service.js:156-165 | a parse result is accepted iff it is not `null`/`undefined`, and one with a truthy `season` is kept unchanged |
| GeminiService.TryTurn | Backend/service/ai/gemini.service.js:126-169 | a turn yields an analysis only when it is a candidate assistant turn, and the analysis is not `null`/`undefined` |
| GeminiService.StripJsonFencesKeeps | Backend/service/ai/gemini.service.js:145 | text without backticks passes through |
| GeminiService.BareFenceKept | Backend/service/ai/gemini.service.js:145 | a fence without `json` is left for the next step |
| GeminiService.JsonFenceRemoved | Backend/service/ai/gemini.service.js:145 | a fence followed by `json` is removed |
| GeminiService.SpaceHasNoBacktick | Backend/service/ai/gemini.service.js:145 | whitespace contains no backtick |
| GeminiService.StripFencesWithoutBackticks | Backend/service/ai/gemini.service.js:144-147 | without backticks the cleanup is only a trim |
| GeminiService.FencedPayloadCleaned | Backend/service/ai/gemini.service.js:144-152 | a fenced object comes out exactly as the object, and it is its own brace candidate |
| GeminiService.FirstIndex | Backend/service/ai/gemini.service.js:150 | the first `{` is inside the text |
| GeminiService.LastIndex | Backend/service/ai/gemini.service.js:150 | the last `}` is inside the text |
| GeminiService.FirstIndexIsFirst | Backend/service/ai/gemini.service.js:150 | it is the first occurrence; none means absent |
| GeminiService.LastIndexIsLast | Backend/service/ai/gemini.service.js:150 | it is the last occurrence; none means absent |
| GeminiService.BraceCandidateIsGreedyMatch | Backend/service/ai/gemini.service.js:150-152 | without a matching pair the whole text; otherwise first `{` to last `}` |
| GeminiService.SentinelReplyParsesPayload | Backend/service/ai/gemini.service.js:137-152 | a reply of the persona's shape hands exactly the object's text to the parser |
| GeminiService.NormalizeOnlySetsSeason | Backend/service/ai/gemini.service.js:154-162 | fails only on nullish; only `season` changes, and only when falsy with a truthy `primary_season` |
| GeminiService.LatestNoneIffNothingFound | Backend/service/ai/gemini.service.js:122-177 | nothing found iff no turn yields anything |
| GeminiService.LatestIsMostRecent | Backend/service/ai/gemini.service.js:122-169 | the result is what the highest-index yielding turn yields |
| GeminiService.LatestPrefixEqual | Backend/service/ai/gemini.service.js:122 | the scan of a prefix only looks at that prefix |
| GeminiService.LatestIgnoresLaterFailures | Backend/service/ai/gemini.service.js:126-168 | appending turns that yield nothing changes nothing |
| GeminiService.LatestTakesLastSuccess | Backend/service/ai/gemini.service.js:122-165 | a last turn that yields wins |
| GeminiService.OutcomeIsTryTurn | Backend/service/ai/gemini.service.js:126-168 | the per-turn outcome is the cleanup-and-parse pipeline |
| GeminiService.ExamineTurn | Backend/service/ai/gemini.service.js:123-168 | the loop body computes the turn's outcome |
| GeminiService.ScanTurns | Backend/service/ai/gemini.service.js:122-170 | the backward loop returns the most recent outcome |
| GeminiService.AnalyzeColorType | Backend/service/ai/gemini.service.js:114-186 | non-array gives `ANALYSIS_FAILED`; otherwise `Found` of the most recent outcome or `ANALYSIS_NOT_FOUND` |
| FormValidation.Required | Frontend/src/composables/useFormValidation.js:7-12 | an error iff the value is falsy or only whitespace; the message is `fieldName + ' mező kötelező'` |
| FormValidation.RequiredRejectsFalsy | Frontend/src/composables/useFormValidation.js:8-9 | `0`, `''`, `false` and `null` are rejected |
| FormValidation.RequiredAcceptsPadded | Frontend/src/composables/useFormValidation.js:8-11 | a visible character with any padding is accepted |
| RouterGuard.BeforeEach | Frontend/src/router/index.js:71-95 | `/login` iff protected without token or user; `/dashboard` iff login/register while signed in; else `next()` |
| RouterGuard.GuardSettlesInOneStep | Frontend/src/router/index.js:71-95 | a redirect target is a known page the guard lets through |
| RouterGuard.GuardChecksPresenceOnly | Frontend/src/router/index.js:74-79 | only presence of the stored items matters |
| RouterGuard.ProtectedPages | Frontend/src/router/index.js:14-63 | a path requires sign-in iff, ignoring ASCII case and one trailing slash, it is the dashboard, the profile or the chat |
| RouterGuard.RequiresAuth | Frontend/src/router/index.js:45-63 | a path that requires sign-in is, lower-cased, one of the three protected pages with or without a trailing slash |
| RouterGuard.MixedCasePathIsProtected | Frontend/src/router/index.js:65-68 | `/Dashboard/` resolves to the dashboard and is protected |
| RouterGuard.DoubleSlashPathIsNotProtected | Frontend/src/router/index.js:65-68 | `/dashboard//` matches no page |
| FrontendServices.ApiCall | Frontend/src/services/index.js:22-31 | success gives `{success, data}`; failure gives the server's message, else the default, and the error |
| FrontendServices.ApiCallFailureHasMessage | Frontend/src/services/index.js:27 | with the default error message, a failure always has a truthy message |
| FrontendServices.Without | Frontend/src/services/index.js:184 | the filter never grows the list |
| FrontendServices.WithoutMembers | Frontend/src/services/index.js:184 | every copy of the callback is removed and nothing else |
| FrontendServices.WithoutAppend | Frontend/src/services/index.js:184 | the filter works element by element, so order is kept |
| FrontendServices.WithoutAbsent | Frontend/src/services/index.js:184 | removing an absent callback changes nothing |
| FrontendServices.AddThenRemoveListener | Frontend/src/services/index.js:183-184 | adding a new listener and removing it restores the list |
| FrontendServices.InitialTheme | Frontend/src/services/index.js:153-159 | a saved valid theme, else dark iff the system prefers dark |
| FrontendServices.Toggled | Frontend/src/services/index.js:170-172 | `light` becomes `dark`, anything else `light` |
| FrontendServices.ToggleTwice | Frontend/src/services/index.js:170-172 | toggling twice restores a valid theme |
| FrontendServices.ThemeService.constructor | Frontend/src/services/index.js:142-145 | starts light with no listeners |
| FrontendServices.ThemeService.Init | Frontend/src/services/index.js:147-151 | takes and applies the initial theme; follows the system iff it can be watched |
| FrontendServices.ThemeService.NotifyListeners | Frontend/src/services/index.js:189 | every listener is called in order with the theme |
| FrontendServices.ThemeService.SetTheme | Frontend/src/services/index.js:161-168 | an invalid theme changes nothing; a valid one is set, saved, applied and broadcast |
| FrontendServices.ThemeService.ToggleTheme | Frontend/src/services/index.js:170-172 | sets, saves, applies and broadcasts the toggled theme |
| FrontendServices.ThemeService.GetCurrentTheme | Frontend/src/services/index.js:174-176 | always `light` or `dark` |
| FrontendServices.ThemeService.AddListener | Frontend/src/services/index.js:183 | appends and changes nothing else |
| FrontendServices.ThemeService.RemoveListener | Frontend/src/services/index.js:184 | filters the callback out and changes nothing else |
| FrontendServices.ThemeService.SystemThemeChanged | Frontend/src/services/index.js:191-199 | when following the system with no saved theme, the system's scheme is set, saved, applied and broadcast; otherwise nothing changes |
| FrontendServices.ToastService.constructor | Frontend/src/services/index.js:205-207 | no listeners, nothing shown |
| FrontendServices.ToastService.AddListener | Frontend/src/services/index.js:209 | appends |
| FrontendServices.ToastService.RemoveListener | Frontend/src/services/index.js:210 | filters the callback out |
| FrontendServices.ToastService.Show | Frontend/src/services/index.js:217-224 | every listener gets the visible toast, and its id is returned |
| FrontendServices.ToastService.Success | Frontend/src/services/index.js:212 | a success toast of 4000 ms by default |
| FrontendServices.ToastService.Error | Frontend/src/services/index.js:213 | an error toast of 5000 ms by default |
| FrontendServices.ToastService.Warning | Frontend/src/services/index.js:214 | a warning toast of 4000 ms by default |
| FrontendServices.ToastService.Info | Frontend/src/services/index.js:215 | an info toast of 4000 ms by default |
| FrontendServices.Greeting | Frontend/src/services/index.js:233 | the name is used iff truthy |
| FrontendServices.InterpolateContains | Frontend/src/services/index.js:247-248 | a template literal contains each substituted value |
| FrontendServices.InterpolateStartsWith | Frontend/src/services/index.js:248 | with an empty first piece it starts with the first value |
| FrontendServices.InterpolateEndsWith | Frontend/src/services/index.js:248 | with an empty last piece it ends with the last value |
| FrontendServices.LocaleFallsBackToHu | Frontend/src/services/index.js:243 | every locale gets the Hungarian texts |
| FrontendServices.HtmlCarriesTexts | Frontend/src/services/index.js:247 | the html contains the link and every text |
| FrontendServices.TextContents | Frontend/src/services/index.js:248 | the text contains the link, starts with the greeting and ends with the footer |
| FrontendServices.HuFooterBreaksOnce | Frontend/src/services/index.js:239-248 | only the first `<br>` of the footer becomes a newline |
| FrontendServices.TemplatePassesValidation | Frontend/src/services/index.js:245-249 | a template with subject and html passes `validateEmailTemplate` |
| FrontendServices.BuiltTemplateHasHtml | Frontend/src/services/index.js:247 | the html is not empty |
| FrontendServices.RecoveryTemplateContents | Frontend/src/services/index.js:229-250 | Hungarian subject; html and text contain the link; the backend accepts the template |
| FrontendServices.RecoveryTemplate | Frontend/src/services/index.js:229-250 | every locale gets the Hungarian subject, since `hu` is the only template |
| UseAuth.InitialUser | Frontend/src/composables/useAuth.js:9 | a missing or empty item gives `null`; otherwise the parse of the item |
| UseAuth.Session.constructor | Frontend/src/composables/useAuth.js:8-9 | token and user are read from storage |
| UseAuth.LoginAnswer | Frontend/src/composables/useAuth.js:29-38 | success iff accepted; otherwise the message or `'auth.login_failed'` |
| UseAuth.LoginFallbackOnlyWithoutToken | Frontend/src/composables/useAuth.js:29-38 | a rejected request shows its own message; the fallback appears only for a success without token |
| UseAuth.LoginRoundTrip | Frontend/src/composables/useAuth.js:26-34 | the backend's successful login answer is accepted |
| UseAuth.LoginRejectionShowsServerMessage | Frontend/src/services/index.js:27 | a rejected login shows the backend's message |
| UseAuth.Relay | Frontend/src/composables/useAuth.js:51-57 | success iff the result succeeded; otherwise its message or the fallback |
| UseAuth.RelayFallbackUnused | Frontend/src/composables/useAuth.js:51-73 | behind `apiCall` the fallback is never shown |
| UseAuth.Register | Frontend/src/composables/useAuth.js:51-57 | success iff the request succeeded |
| UseAuth.ForgotPassword | Frontend/src/composables/useAuth.js:59-65 | success iff the request succeeded |
| UseAuth.ResetPassword | Frontend/src/composables/useAuth.js:67-73 | success iff the request succeeded |
| UseAuth.SignedOutRedirects | Frontend/src/composables/useAuth.js:42-47 | without a token every protected page redirects to `/login` |
| UseAuth.Auth.constructor | Frontend/src/composables/useAuth.js:18-20 | both messages empty, not loading |
| UseAuth.Auth.Login | Frontend/src/composables/useAuth.js:23-39 | token and user stored in memory and storage iff accepted; otherwise nothing changes |
| UseAuth.Auth.Logout | Frontend/src/composables/useAuth.js:42-48 | token and user null, both keys removed |
| UseAuth.Auth.SetError | Frontend/src/composables/useAuth.js:103-106 | sets the error and clears the success message |
| UseAuth.Auth.SetSuccess | Frontend/src/composables/useAuth.js:108-111 | sets the success message and clears the error |
| UseAuth.Auth.ClearMessages | Frontend/src/composables/useAuth.js:113-116 | clears both |
| UseAuth.Auth.SetLoading | Frontend/src/composables/useAuth.js:118-120 | sets loading only |
| UseAuth.Auth.ValidateForm | Frontend/src/composables/useAuth.js:123-132 | true iff every field passes `required`; false sets `'auth.missing_fields'` |
| UseAuth.Auth.ValidatePasswordMatch | Frontend/src/composables/useAuth.js:134-140 | true iff equal; false sets the mismatch error |
| UseAuth.Auth.WithLoading | Frontend/src/composables/useAuth.js:145-159 | loading off afterwards on both paths; a throw sets `'common.server_error'` |
| UseAuth.Auth.HandleApiResponse | Frontend/src/composables/useAuth.js:161-169 | returns `success`; failure shows the message or `'common.server_error'`; a nullish result throws |
| UseAuth.Auth.CheckQueryMessages | Frontend/src/composables/useAuth.js:177-180 | `passwordReset` wins over `registered`; neither leaves the messages |

## Left out

- The Gemini SDK, the prompt files and the 800 ms retry delay. The endpoint is the sequence of its two replies, the persona is a string, and the delay has no effect.
- `JSON.parse` and `JSON.stringify` are parameters. No JSON grammar is modelled.
- Hashing, token generation, JWT signing and the clock are parameters. `security.helper.js`, `auth.middleware.js` and `email.helper.js` are not part of this model.
- The Sequelize models and associations are replaced by the in-memory `Store`. SQL type coercion in `where` clauses is not modelled: a key matches only a number equal to it.
- UserService.NameIs, UserService.EmailIs, Tables.UniqueUsers, UserService.Register, UserService.Login, UserController.SeasonNamed, UserController.UpdateColorSeason, UserController.RowIs, UserController.AddFavoriteColor, UserController.RemoveFavoriteColor, AiController.SeasonFor: `where` comparisons use exact string equality. MySQL's default case-insensitive collation is not modelled, so the model treats `'#ABCDEF'` after `'#abcdef'`, the login `ADMIN` against `admin`, and the season `Autumn` against `autumn` as different values.
- UserService.Register, UserService.NewUser: column widths (`login_name` 50, `email_address` and `full_name` 200, `color_hex` 7) are not modelled. An over-long value that makes `create` throw in MySQL's strict mode is stored by the model.
- `JSON.stringify` drops keys whose value is `undefined`. Response bodies keep them as `Undefined`, so an absent key and an undefined one are distinct in the model but not on the wire.
- Request values that the controller hands to the service or to a query are converted with `String()`.
- `getUserProfile` and `deleteAccount` in the controller are database reads and deletes. Only their route mappings are modelled (`UserRoutes.ProfileRoute`, `UserRoutes.DeleteAccountRoute`).
- UserService.Login, UserService.Register, UserService.CheckUserExists, UserService.ForgotPassword, UserService.ResetPassword, UserService.ChangePassword, UserService.FindUserByToken, UserController.GetFavoriteColors, UserRoutes.LoginRoute, UserRoutes.ResetPasswordRoute, UserRoutes.ProfileRoute, UserRoutes.ChangePasswordRoute, UserRoutes.DeleteAccountRoute, UserRoutes.ColorSeasonRoute, UserRoutes.FavoriteColorsRoute, UserRoutes.AddFavoriteColorRoute, UserRoutes.RemoveFavoriteColorRoute: a query that throws outside a controller's `try` is not modelled. The same holds for the lookups before the `try` in `updateColorSeason`, `addFavoriteColor` and `removeFavoriteColor`, and for `getUserProfile` and the lookup in `deleteAccount`. Such a throw reaches `asyncHandler`, which answers 500 `'Server error occurred'`. In the model these queries always succeed, and these routes take the controller's returned result only.
- GeminiService.Chat: when the history cannot be rendered, the source fails with the TypeError's `message`. That text comes from the JavaScript engine, so the model's failure has no message there.
- Partial database failures inside a `try` are one flag per operation. Whatever the failed write left behind is not modelled.
- `new Date()` is the `now` parameter. Date serialisation and time zones are left out.
- `encodeURIComponent` in the reset link is a parameter. URL decoding of route parameters is left out.
- JSON key order of response bodies is not modelled: bodies are maps.
- Numbers are integers. Non-integral JSON numbers, `NaN` and `Infinity` are left out, and `String()` of a number is its decimal form.
- `toLowerCase` lowers ASCII letters only. The `\s` of the patterns is the JavaScript whitespace set.
- `FormValidation.Required`: `toString()` of arrays and objects is approximated by `String()` on the value model.
- The frontend service wrappers other than login, register, forgot and reset password are `apiCall` with a fixed default message and add nothing to `FrontendServices.ApiCall`.
- `templates[locale]` for an inherited property name such as `constructor` is not modelled. The only own locale is `hu`.
- `validateToken` and `initAuth` (base64 JWT decoding against the clock), the `router.push` navigation helpers and Vue reactivity are left out.
- UseAuth.Auth.WithLoading: the effect of `asyncFn` itself on the messages is not modelled. Its settled outcome is a parameter.
- UseAuth.Session.constructor: a stored user that `JSON.parse` rejects makes the module fail to load. This is a precondition rather than a modelled crash.
- FrontendServices.ToastService.Show: the toast id (`Date.now() + Math.random()`) is a parameter.
- `addThemeChangeListener` and `removeThemeChangeListener` are plain aliases and are not modelled separately. `applyTheme` touches the DOM and is recorded only as the applied theme.
- The router's `/` entry is a plain redirect that is resolved before the guard runs.
- The router's percent-encoding and decoding of paths is not modelled. A path is matched as given, ignoring ASCII letter case and one trailing slash, as the router's default options do.
- UseAuth.Auth.ValidatePasswordMatch: `!==` on two objects compares identity. The model compares values.
- UseAuth.Auth.ValidateForm: the form is an object of values. Reading a field of a non-object form is left out.
- `Js.LengthBelow`: `.length` of an object that has a `length` field is not modelled. Only strings and arrays have a length.
- Logging (`console.*`) is left out.

## Findings

| source | as written | input that shows it | evidently intended | confidence | as-written member | corrected member |
|---|---|---|---|---|---|---|
| Backend/routers/api/user/index.js:54-65 | the register route answers 200 `success: true` for every result the controller returns, including a returned rejection such as `USERNAME_TOO_SHORT` | body `{username: "ab", password: "secret1", email: "ab@example.org", fullName: "Anna"}`: it passes `validateRequired`, the controller returns `USERNAME_TOO_SHORT`, and the client is told registration succeeded, with `user` undefined | a returned rejection is reported as a client error with its code, and success means a user was created | high, not executed | UserRoutes.RegisterRouteAsWritten, UserRoutes.RegisterRouteReportsRejectedRegistration | UserRoutes.RegisterRoute, UserRoutes.RegisterRouteSuccessIffCreated |
