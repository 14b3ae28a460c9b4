/**
 * The `/api/user` routes: the validation middleware in front of each handler, and the
 * mapping from what the controller returned (or threw) to an HTTP status and message.
 * Request bodies are objects, as the JSON body parser delivers them.
 */
module UserRoutes {
  import opened Wrappers
  import opened Js
  import opened ApiResponse
  import opened RequestValidation
  import UserService
  import UserController

  const LOGIN_FIELDS: seq<string> := ["username", "password"]
  const REGISTER_FIELDS: seq<string> := ["username", "password", "email", "fullName"]
  const RESET_FIELDS: seq<string> := ["token", "password"]
  const CHANGE_PASSWORD_FIELDS: seq<string> := ["currentPassword", "newPassword"]

  /** `router.post(path, validateRequired(...fields), handler)`: the handler runs only when every field is truthy. */
  function Guarded(fields: seq<string>, body: map<string, Value>, handled: Response): (r: Response)
    ensures (forall f :: f in fields ==> Truthy(Prop(Obj(body), f))) ==> r == handled
    ensures !(forall f :: f in fields ==> Truthy(Prop(Obj(body), f))) ==> r == ValidationError()
  {
    ValidateRequiredNextIffAllPresent(fields, Obj(body));
    match ValidateRequired(fields, Obj(body))
    case Respond(response) => response
    case _ => handled
  }

  /** POST /login after validation. */
  function LoginRoute(result: Result<UserService.Session>): (r: Response)
    ensures result.Err? ==> r.status == 401
    ensures result.Err? ==>
      r.Field("message") ==
        Str(if result.error == UserService.INVALID_CREDENTIALS then "Invalid username or password" else SERVER_ERROR_MESSAGE)
    ensures result.Ok? ==> r.status == 200 && r.Field("token") == Str(result.value.token) && r.Field("user") == result.value.user
    ensures result.Ok? ==> r.Field("message") == Str("Login successful") && r.Field("redirect") == Str("/dashboard")
  {
    match result
    case Err(code) =>
      Error(Str(if code == UserService.INVALID_CREDENTIALS then "Invalid username or password" else SERVER_ERROR_MESSAGE), 401)
    case Ok(session) =>
      Success(Str("Login successful"),
              Obj(map["redirect" := Str("/dashboard"), "user" := session.user, "token" := Str(session.token)]))
  }

  /** The `{ user: result.user }` data of a register response; `undefined` when the result has no user. */
  function UserOf(result: Result<Value>): Value {
    if result.Ok? then result.value else Undefined
  }

  /**
   * POST /register after validation, as written: a thrown error is a 409 conflict, and a
   * result the controller returns is reported as a success whatever its `success` field says.
   */
  function RegisterRouteAsWritten(outcome: Call<Result<Value>>): (r: Response)
    ensures outcome.Threw? ==> r.status == 409
    ensures outcome.Returned? ==> r.status == 200 && r.Field("success") == Bool(true)
    ensures outcome == Threw(UserService.USERNAME_TAKEN) ==> r.Field("message") == Str("Username already taken")
    ensures outcome.Threw? && outcome.message != UserService.USERNAME_TAKEN ==>
      r.Field("message") == Str("Email already in use")
    ensures outcome.Returned? ==>
      r.Field("message") == Str("Registration successful") && r.Field("user") == UserOf(outcome.value)
  {
    match outcome
    case Threw(m) => Error(Str(if m == UserService.USERNAME_TAKEN then "Username already taken" else "Email already in use"), 409)
    case Returned(result) => Success(Str("Registration successful"), Obj(map["user" := UserOf(result)]))
  }

  /**
   * A registration the controller rejects (a three-letter minimum on the user name) passes
   * the route's own validation and is then answered with 200 and `success: true`.
   */
  lemma RegisterRouteReportsRejectedRegistration()
    ensures var body := map["username" := Str("ab"), "password" := Str("secret1"),
                            "email" := Str("ab@example.org"), "fullName" := Str("Anna")];
      ValidateRequired(REGISTER_FIELDS, Obj(body)) == Next &&
      UserController.RegisterCheck(Obj(body)) == Some(UserController.USERNAME_TOO_SHORT) &&
      var r := RegisterRouteAsWritten(Returned(Err(UserController.USERNAME_TOO_SHORT)));
      r.status == 200 && r.Field("success") == Bool(true) && r.Field("user") == Undefined
  {
    var body := map["username" := Str("ab"), "password" := Str("secret1"),
                    "email" := Str("ab@example.org"), "fullName" := Str("Anna")];
    assert Missing(Obj(body), REGISTER_FIELDS) == [];
    assert Prop(Obj(body), "username") == Str("ab");
    assert LengthBelow(Prop(Obj(body), "username"), 3);
  }

  /** POST /register after validation, with a rejected registration answered as a client error. */
  function RegisterRoute(outcome: Call<Result<Value>>): (r: Response)
    ensures outcome.Threw? ==> r == RegisterRouteAsWritten(outcome)
    ensures outcome.Returned? && outcome.value.Err? ==>
      r.status == 400 && r.Field("message") == Str(outcome.value.error)
    ensures outcome.Returned? && outcome.value.Ok? ==> r == RegisterRouteAsWritten(outcome)
  {
    match outcome
    case Returned(Err(code)) => Error(Str(code), 400)
    case _ => RegisterRouteAsWritten(outcome)
  }

  /** The corrected route reports success exactly when a user was created. */
  lemma RegisterRouteSuccessIffCreated(outcome: Call<Result<Value>>)
    ensures RegisterRoute(outcome).Field("success") == Bool(true) <==> outcome.Returned? && outcome.value.Ok?
  {
  }

  /** POST /forgot-password after validation; a throw inside the handler is caught by `asyncHandler`. */
  function ForgotPasswordRoute(outcome: Call<Result<()>>): (r: Response)
    ensures r.status == 500 <==> outcome.Threw? || outcome == Returned(Err(UserService.EMAIL_FAILED))
    ensures r.status != 500 ==> r == Success(Str("Password recovery email sent"))
    ensures outcome.Threw? ==> r == ServerError(Undefined)
    ensures outcome == Returned(Err(UserService.EMAIL_FAILED)) ==> r == Error(Str("Email sending failed"), 500)
  {
    match outcome
    case Threw(_) => ServerError(Undefined)
    case Returned(result) =>
      if result.Err? && result.error == UserService.EMAIL_FAILED then Error(Str("Email sending failed"), 500)
      else Success(Str("Password recovery email sent"))
  }

  /** POST /reset-password after validation. */
  function ResetPasswordRoute(result: Result<()>): (r: Response)
    ensures result.Err? ==> r.status == 400
    ensures result.Err? ==>
      (r.Field("message") == Str("Invalid or expired token") <==> result.error == UserService.INVALID_TOKEN)
    ensures result.Err? && result.error != UserService.INVALID_TOKEN ==> r.Field("message") == Str("Token expired")
    ensures result.Ok? ==> r == Success(Str("Password reset successful"))
  {
    match result
    case Err(code) => Error(Str(if code == UserService.INVALID_TOKEN then "Invalid or expired token" else "Token expired"), 400)
    case Ok(_) => Success(Str("Password reset successful"))
  }

  /** GET /me: the profile, or 404. */
  function ProfileRoute(result: Result<Value>): (r: Response)
    ensures result.Err? ==> r.status == 404 && r.Field("message") == Str("User not found")
    ensures result.Ok? ==> r.status == 200 && r.Field("message") == Str("Profile retrieved") && r.Field("user") == result.value
  {
    match result
    case Err(_) => Error(Str("User not found"), 404)
    case Ok(user) => Success(Str("Profile retrieved"), Obj(map["user" := user]))
  }

  /**
   * PUT /change-password after validation. The length check comes before the controller:
   * a short password is answered without looking at `result`.
   */
  function ChangePasswordRoute(newPassword: Value, result: Result<()>): (r: Response)
    ensures LengthBelow(newPassword, 6) ==> r == Error(Str("Password too short (minimum 6 characters)"), 400)
    ensures !LengthBelow(newPassword, 6) && result.Err? ==>
      (r.status == 400 <==> result.error == UserService.INVALID_CURRENT_PASSWORD) &&
      (r.status == 500 <==> result.error != UserService.INVALID_CURRENT_PASSWORD)
    ensures !LengthBelow(newPassword, 6) && result.Err? ==>
      r.Field("message") ==
        Str(if result.error == UserService.INVALID_CURRENT_PASSWORD then "Current password is incorrect" else SERVER_ERROR_MESSAGE)
    ensures !LengthBelow(newPassword, 6) && result.Ok? ==> r == Success(Str("Password changed successfully"))
  {
    if LengthBelow(newPassword, 6) then Error(Str("Password too short (minimum 6 characters)"), 400)
    else match result
      case Err(code) =>
        var wrongPassword := code == UserService.INVALID_CURRENT_PASSWORD;
        Error(Str(if wrongPassword then "Current password is incorrect" else SERVER_ERROR_MESSAGE),
              if wrongPassword then 400 else 500)
      case Ok(_) => Success(Str("Password changed successfully"))
  }

  /** The length check makes the controller's answer irrelevant for a short password. */
  lemma ChangePasswordShortIgnoresController(newPassword: Value, a: Result<()>, b: Result<()>)
    requires LengthBelow(newPassword, 6)
    ensures ChangePasswordRoute(newPassword, a) == ChangePasswordRoute(newPassword, b)
  {
  }

  /** DELETE /delete-account. */
  function DeleteAccountRoute(result: Result<()>): (r: Response)
    ensures r.status == 500 <==> result.Err?
    ensures result.Err? ==> r.Field("success") == Bool(false) && r.Field("message") == Str(SERVER_ERROR_MESSAGE)
    ensures result.Ok? ==> r == Response(200, map["success" := Bool(true), "message" := Str("Account deleted successfully")])
  {
    if result.Err? then Error(Str(SERVER_ERROR_MESSAGE), 500) else Success(Str("Account deleted successfully"))
  }

  /** PUT /color-season after validation. */
  function ColorSeasonRoute(result: Result<Value>): (r: Response)
    ensures result.Err? ==> (r.status == 400 <==> result.error == UserController.INVALID_SEASON)
    ensures result.Err? ==> (r.status == 500 <==> result.error != UserController.INVALID_SEASON)
    ensures result.Err? ==>
      r.Field("message") == Str(if result.error == UserController.INVALID_SEASON then "Invalid season" else SERVER_ERROR_MESSAGE)
    ensures result.Ok? ==> r.status == 200 && r.Field("user") == result.value
  {
    match result
    case Err(code) =>
      var invalid := code == UserController.INVALID_SEASON;
      Error(Str(if invalid then "Invalid season" else SERVER_ERROR_MESSAGE), if invalid then 400 else 500)
    case Ok(user) => Success(Str("Color season updated"), Obj(map["user" := user]))
  }

  /** `{ favoriteColors: result.favoriteColors }` */
  function ColorsData(colors: seq<string>): Value {
    Obj(map["favoriteColors" := Arr(UserService.Strings(colors))])
  }

  /** GET /favorite-colors. */
  function FavoriteColorsRoute(result: Result<seq<string>>): (r: Response)
    ensures result.Err? ==> r.status == 500 && r.Field("message") == Str("Failed to get favorite colors")
    ensures result.Ok? ==> r.status == 200 && r.Field("favoriteColors") == Arr(UserService.Strings(result.value))
  {
    match result
    case Err(_) => Error(Str("Failed to get favorite colors"), 500)
    case Ok(colors) => Success(Str("Favorite colors retrieved"), ColorsData(colors))
  }

  /** POST /favorite-colors after validation: a duplicate is a 409 conflict, every other failure a 400. */
  function AddFavoriteColorRoute(result: Result<seq<string>>): (r: Response)
    ensures result.Err? ==> (r.status == 409 <==> result.error == UserController.COLOR_ALREADY_EXISTS)
    ensures result.Err? ==> (r.status == 400 <==> result.error != UserController.COLOR_ALREADY_EXISTS)
    ensures result == Err(UserController.COLOR_ALREADY_EXISTS) ==> r.Field("message") == Str("Color already in favorites")
    ensures result == Err(UserController.INVALID_HEX_COLOR) ==> r.Field("message") == Str("Invalid hex color format")
    ensures result.Err? && result.error != UserController.INVALID_HEX_COLOR && result.error != UserController.COLOR_ALREADY_EXISTS ==>
      r.Field("message") == Str(SERVER_ERROR_MESSAGE)
    ensures result.Ok? ==> r.status == 200 && r.Field("favoriteColors") == Arr(UserService.Strings(result.value))
  {
    match result
    case Err(code) =>
      var msg := if code == UserController.INVALID_HEX_COLOR then "Invalid hex color format"
                 else if code == UserController.COLOR_ALREADY_EXISTS then "Color already in favorites"
                 else SERVER_ERROR_MESSAGE;
      Error(Str(msg), if code == UserController.COLOR_ALREADY_EXISTS then 409 else 400)
    case Ok(colors) => Success(Str("Favorite color added"), ColorsData(colors))
  }

  /** DELETE /favorite-colors/:colorHex, given the decoded path parameter's result. */
  function RemoveFavoriteColorRoute(result: Result<seq<string>>): (r: Response)
    ensures result.Err? ==> r.status == 500 && r.Field("message") == Str("Failed to remove favorite color")
    ensures result.Ok? ==> r.status == 200 && r.Field("favoriteColors") == Arr(UserService.Strings(result.value))
  {
    match result
    case Err(_) => Error(Str("Failed to remove favorite color"), 500)
    case Ok(colors) => Success(Str("Favorite color removed"), ColorsData(colors))
  }
}
