/**
 * The authentication composable: the signed-in token and user, shared by every component
 * and mirrored in browser storage, and each component's message and loading state.
 */
module UseAuth {
  import opened Wrappers
  import opened Js
  import opened ApiResponse
  import opened FormValidation
  import opened FrontendServices
  import opened RouterGuard
  import UserService
  import UserRoutes

  const TOKEN_KEY: string := "authToken"
  const USER_KEY: string := "authUser"

  /** The default messages the service wrappers give `apiCall`. */
  const LOGIN_ERROR: string := "Bejelentkezési hiba"
  const REGISTER_ERROR: string := "Regisztrációs hiba"
  const PASSWORD_RESET_ERROR: string := "Jelszó visszaállítási hiba"

  const LOGIN_FAILED: string := "auth.login_failed"
  const REGISTRATION_FAILED: string := "auth.registration_failed"
  const FORGOT_PASSWORD_FAILED: string := "auth.forgot_password_failed"
  const RESET_PASSWORD_FAILED: string := "auth.reset_password_failed"
  const MISSING_FIELDS: string := "auth.missing_fields"
  const PASSWORDS_DONT_MATCH: string := "auth.passwords_dont_match"
  const SERVER_ERROR: string := "common.server_error"
  const REGISTRATION_SUCCESS: string := "auth.registration_success"
  const PASSWORD_RESET_SUCCESS: string := "auth.password_reset_success"

  /** `localStorage.getItem(key)`: `null` (here `None`) for a missing key. */
  function Stored(storage: map<string, string>, key: string): Option<string> {
    if key in storage then Some(storage[key]) else None
  }

  /**
   * `JSON.parse(localStorage.getItem('authUser') || 'null')`; `parse` is `JSON.parse`, `None`
   * when it throws.
   */
  function InitialUser(item: Option<string>, parse: string -> Option<Value>): (r: Option<Value>)
    ensures item.None? || item == Some("") ==> r == Some(Null)
    ensures item.Some? && item.value != "" ==> r == parse(item.value)
  {
    if item.None? || item.value == "" then Some(Null) else parse(item.value)
  }

  /** The module-level `token` and `user` refs together with the browser storage they mirror. */
  class Session {
    var token: Value
    var user: Value
    var storage: map<string, string>

    /** The refs as the module initialises them from storage; the module fails to load when the stored user does not parse. */
    constructor(storage: map<string, string>, parse: string -> Option<Value>)
      requires InitialUser(Stored(storage, USER_KEY), parse).Some?
      ensures token == (if TOKEN_KEY in storage then Str(storage[TOKEN_KEY]) else Null)
      ensures user == InitialUser(Stored(storage, USER_KEY), parse).value
      ensures this.storage == storage
    {
      token := if TOKEN_KEY in storage then Str(storage[TOKEN_KEY]) else Null;
      user := InitialUser(Stored(storage, USER_KEY), parse).value;
      this.storage := storage;
    }

    /** `isAuthenticated`: `!!token.value`. */
    predicate IsAuthenticated()
      reads this
    {
      Truthy(token)
    }
  }

  /** `result.success && result.data?.token`: the login result that is stored. */
  predicate Accepts(result: Value) {
    Truthy(Prop(result, "success")) && Truthy(Prop(Prop(result, "data"), "token"))
  }

  /** The object `login` returns for the service's `result`. */
  function LoginAnswer(result: Value): (r: Value)
    ensures r.Obj? && "success" in r.fields && r.fields["success"] == Bool(Accepts(result))
    ensures Accepts(result) ==> r.fields.Keys == {"success"}
    ensures !Accepts(result) ==>
      r.fields.Keys == {"success", "message"} && r.fields["message"] == Or(Prop(result, "message"), Str(LOGIN_FAILED))
  {
    if Accepts(result) then Obj(map["success" := Bool(true)])
    else Obj(map["success" := Bool(false), "message" := Or(Prop(result, "message"), Str(LOGIN_FAILED))])
  }

  /**
   * The fallback `'auth.login_failed'` only shows for a call that succeeded without a token:
   * a rejected call always carries the server's message or the service's default.
   */
  lemma LoginFallbackOnlyWithoutToken(outcome: Settled)
    ensures outcome.Rejected? ==>
      Prop(LoginAnswer(ApiCall(outcome, Str(LOGIN_ERROR))), "message") == Prop(ApiCall(outcome, Str(LOGIN_ERROR)), "message")
    ensures outcome.Fulfilled? && !Truthy(Prop(Prop(outcome.response, "data"), "token")) ==>
      Prop(LoginAnswer(ApiCall(outcome, Str(LOGIN_ERROR))), "message") == Str(LOGIN_FAILED)
  {
    var result := ApiCall(outcome, Str(LOGIN_ERROR));
    if outcome.Rejected? {
      assert Truthy(Prop(result, "message"));
    } else {
      assert Prop(result, "message") == Undefined;
    }
  }

  /** A successful backend login with a non-empty token is stored by the client. */
  lemma LoginRoundTrip(session: UserService.Session)
    requires session.token != ""
    ensures Accepts(ApiCall(Fulfilled(Obj(map["data" := Obj(UserRoutes.LoginRoute(Ok(session)).body)])), Str(LOGIN_ERROR)))
  {
    var body := UserRoutes.LoginRoute(Ok(session)).body;
    assert Prop(Obj(body), "token") == Str(session.token);
  }

  /** A failed backend login shows the message of the server's error body. */
  lemma LoginRejectionShowsServerMessage(code: string, others: map<string, Value>)
    ensures var body := UserRoutes.LoginRoute(Err(code)).body;
      var error := others["response" := Obj(map["data" := Obj(body)])];
      var r := LoginAnswer(ApiCall(Rejected(error), Str(LOGIN_ERROR)));
      r.fields["success"] == Bool(false) && r.fields["message"] == body["message"]
  {
    var body := UserRoutes.LoginRoute(Err(code)).body;
    assert Truthy(body["message"]);
  }

  /** The object `register`, `forgotPassword` and `resetPassword` return for the service's `result`. */
  function Relay(result: Value, fallback: string): (r: Value)
    ensures r.Obj? && "success" in r.fields && r.fields["success"] == Bool(Truthy(Prop(result, "success")))
    ensures Truthy(Prop(result, "success")) ==> r.fields.Keys == {"success"}
    ensures !Truthy(Prop(result, "success")) ==>
      r.fields.Keys == {"success", "message"} && r.fields["message"] == Or(Prop(result, "message"), Str(fallback))
  {
    if Truthy(Prop(result, "success")) then Obj(map["success" := Bool(true)])
    else Obj(map["success" := Bool(false), "message" := Or(Prop(result, "message"), Str(fallback))])
  }

  /**
   * Behind `apiCall` with a non-empty default, the fallback never shows: a fulfilled call
   * succeeds, and a rejected one carries the server's message or the default.
   */
  lemma RelayFallbackUnused(outcome: Settled, errorMessage: string, fallback: string)
    requires errorMessage != ""
    ensures Prop(Relay(ApiCall(outcome, Str(errorMessage)), fallback), "success") == Bool(outcome.Fulfilled?)
    ensures outcome.Rejected? ==>
      Prop(Relay(ApiCall(outcome, Str(errorMessage)), fallback), "message") == Prop(ApiCall(outcome, Str(errorMessage)), "message")
  {
    if outcome.Rejected? {
      assert Truthy(Prop(ApiCall(outcome, Str(errorMessage)), "message"));
    }
  }

  /** `register(userData)`, given how the request settled. */
  function Register(outcome: Settled): (r: Value)
    ensures Prop(r, "success") == Bool(outcome.Fulfilled?)
  {
    RelayFallbackUnused(outcome, REGISTER_ERROR, REGISTRATION_FAILED);
    Relay(ApiCall(outcome, Str(REGISTER_ERROR)), REGISTRATION_FAILED)
  }

  /** `forgotPassword(email, emailTemplate)`, given how the request settled. */
  function ForgotPassword(outcome: Settled): (r: Value)
    ensures Prop(r, "success") == Bool(outcome.Fulfilled?)
  {
    RelayFallbackUnused(outcome, PASSWORD_RESET_ERROR, FORGOT_PASSWORD_FAILED);
    Relay(ApiCall(outcome, Str(PASSWORD_RESET_ERROR)), FORGOT_PASSWORD_FAILED)
  }

  /** `resetPassword(token, password)`, given how the request settled. */
  function ResetPassword(outcome: Settled): (r: Value)
    ensures Prop(r, "success") == Bool(outcome.Fulfilled?)
  {
    RelayFallbackUnused(outcome, PASSWORD_RESET_ERROR, RESET_PASSWORD_FAILED);
    Relay(ApiCall(outcome, Str(PASSWORD_RESET_ERROR)), RESET_PASSWORD_FAILED)
  }

  /** Every field passes `validators.required`. */
  predicate FormComplete(form: map<string, Value>, fields: seq<string>) {
    forall i :: 0 <= i < |fields| ==> Required(Prop(Obj(form), fields[i]), fields[i]).None?
  }

  /** With storage signed out, every protected page sends the visitor to the login page. */
  lemma SignedOutRedirects(storage: map<string, string>, path: string)
    requires TOKEN_KEY !in storage
    ensures RequiresAuth(path) ==> Guard(path, Stored(storage, TOKEN_KEY), Stored(storage, USER_KEY)) == Redirect("/login")
  {
  }

  /** How the awaited `asyncFn()` of `withLoading` settled. */
  datatype Awaited = Resolved(value: Value) | Thrown(error: Value)

  /** One component's use of the composable: its own message and loading refs over the shared session. */
  class Auth {
    const session: Session
    var errorMessage: Value
    var successMessage: Value
    var loading: Value

    /** At most one of the two messages is shown. */
    predicate Valid()
      reads this
    {
      errorMessage == Str("") || successMessage == Str("")
    }

    constructor(session: Session)
      ensures Valid()
      ensures this.session == session
      ensures errorMessage == Str("") && successMessage == Str("") && loading == Bool(false)
    {
      this.session := session;
      errorMessage := Str("");
      successMessage := Str("");
      loading := Bool(false);
    }

    /**
     * `login(username, password)`, given how the request settled; `stringify` is
     * `JSON.stringify`. Token and user are stored, in memory and in storage, only for an
     * accepted result.
     */
    method Login(outcome: Settled, stringify: Value -> string) returns (r: Value)
      modifies session
      ensures r == LoginAnswer(ApiCall(outcome, Str(LOGIN_ERROR)))
      ensures var data := Prop(ApiCall(outcome, Str(LOGIN_ERROR)), "data");
        Accepts(ApiCall(outcome, Str(LOGIN_ERROR))) ==>
          session.token == Prop(data, "token") && session.user == Prop(data, "user") &&
          session.storage == old(session.storage)[TOKEN_KEY := ToStr(Prop(data, "token"))][USER_KEY := stringify(Prop(data, "user"))]
      ensures Accepts(ApiCall(outcome, Str(LOGIN_ERROR))) ==> session.IsAuthenticated()
      ensures !Accepts(ApiCall(outcome, Str(LOGIN_ERROR))) ==>
        session.token == old(session.token) && session.user == old(session.user) && session.storage == old(session.storage)
    {
      var result := ApiCall(outcome, Str(LOGIN_ERROR));
      if Truthy(Prop(result, "success")) && Truthy(Prop(Prop(result, "data"), "token")) {
        var data := Prop(result, "data");
        session.token := Prop(data, "token");
        session.user := Prop(data, "user");
        session.storage := session.storage[TOKEN_KEY := ToStr(Prop(data, "token"))];
        session.storage := session.storage[USER_KEY := stringify(Prop(data, "user"))];
        return Obj(map["success" := Bool(true)]);
      }
      r := Obj(map["success" := Bool(false), "message" := Or(Prop(result, "message"), Str(LOGIN_FAILED))]);
    }

    /** `logout()`: both refs become `null` and both storage keys are removed. */
    method Logout()
      modifies session
      ensures session.token == Null && session.user == Null
      ensures session.storage == old(session.storage) - {TOKEN_KEY, USER_KEY}
      ensures !session.IsAuthenticated() && TOKEN_KEY !in session.storage
    {
      session.token := Null;
      session.user := Null;
      session.storage := session.storage - {TOKEN_KEY};
      session.storage := session.storage - {USER_KEY};
    }

    /** `setError(message)`: shows the error and clears the success message. */
    method SetError(message: Value)
      modifies this
      ensures Valid()
      ensures errorMessage == message && successMessage == Str("") && loading == old(loading)
    {
      errorMessage := message;
      successMessage := Str("");
    }

    /** `setSuccess(message)`: shows the success message and clears the error. */
    method SetSuccess(message: Value)
      modifies this
      ensures Valid()
      ensures successMessage == message && errorMessage == Str("") && loading == old(loading)
    {
      successMessage := message;
      errorMessage := Str("");
    }

    /** `clearMessages()` */
    method ClearMessages()
      modifies this
      ensures Valid()
      ensures errorMessage == Str("") && successMessage == Str("") && loading == old(loading)
    {
      errorMessage := Str("");
      successMessage := Str("");
    }

    /** `setLoading(value)` */
    method SetLoading(value: Value)
      modifies this
      ensures loading == value
      ensures errorMessage == old(errorMessage) && successMessage == old(successMessage)
    {
      loading := value;
    }

    /**
     * `validateForm(form, requiredFields)`: stops at the first field `required` rejects and
     * shows `'auth.missing_fields'`; a complete form leaves the messages alone.
     */
    method ValidateForm(form: map<string, Value>, fields: seq<string>) returns (ok: bool)
      requires Valid()
      modifies this
      ensures Valid()
      ensures ok <==> FormComplete(form, fields)
      ensures !ok ==> errorMessage == Str(MISSING_FIELDS) && successMessage == Str("")
      ensures ok ==> errorMessage == old(errorMessage) && successMessage == old(successMessage)
      ensures loading == old(loading)
    {
      var i := 0;
      while i < |fields|
        invariant 0 <= i <= |fields|
        invariant forall j :: 0 <= j < i ==> Required(Prop(Obj(form), fields[j]), fields[j]).None?
        invariant errorMessage == old(errorMessage) && successMessage == old(successMessage) && loading == old(loading)
      {
        var error := Required(Prop(Obj(form), fields[i]), fields[i]);
        if error.Some? {
          SetError(Str(MISSING_FIELDS));
          return false;
        }
        i := i + 1;
      }
      return true;
    }

    /** `validatePasswordMatch(password, confirmPassword)`; strict inequality compares the values. */
    method ValidatePasswordMatch(password: Value, confirmPassword: Value) returns (ok: bool)
      requires Valid()
      modifies this
      ensures Valid()
      ensures ok <==> password == confirmPassword
      ensures !ok ==> errorMessage == Str(PASSWORDS_DONT_MATCH) && successMessage == Str("")
      ensures ok ==> errorMessage == old(errorMessage) && successMessage == old(successMessage)
      ensures loading == old(loading)
    {
      if password != confirmPassword {
        SetError(Str(PASSWORDS_DONT_MATCH));
        return false;
      }
      return true;
    }

    /**
     * `withLoading(asyncFn)`, given how `asyncFn()` settled: messages are cleared first and
     * loading is off again afterwards on both paths; a throw shows the server-error message.
     */
    method WithLoading(outcome: Awaited) returns (r: Value)
      modifies this
      ensures Valid()
      ensures loading == Bool(false)
      ensures outcome.Resolved? ==> r == outcome.value && errorMessage == Str("") && successMessage == Str("")
      ensures outcome.Thrown? ==>
        r == Obj(map["success" := Bool(false), "error" := outcome.error]) &&
        errorMessage == Str(SERVER_ERROR) && successMessage == Str("")
    {
      ClearMessages();
      SetLoading(Bool(true));
      match outcome
      case Resolved(value) =>
        SetLoading(Bool(false));
        r := value;
      case Thrown(error) =>
        SetError(Str(SERVER_ERROR));
        SetLoading(Bool(false));
        r := Obj(map["success" := Bool(false), "error" := error]);
    }

    /**
     * `handleApiResponse(result, successMsg = null)`: returns whether the result succeeded,
     * showing `successMsg` when it is truthy, or the result's message (or the server-error
     * message) on failure. Reading `success` of a nullish result throws.
     */
    method HandleApiResponse(result: Value, successMsg: Value := Null) returns (r: Call<bool>)
      requires Valid()
      modifies this
      ensures Valid()
      ensures Nullish(result) ==> r.Threw? && errorMessage == old(errorMessage) && successMessage == old(successMessage)
      ensures !Nullish(result) ==> r == Returned(Truthy(Prop(result, "success")))
      ensures !Nullish(result) && Truthy(Prop(result, "success")) ==>
        (Truthy(successMsg) ==> successMessage == successMsg && errorMessage == Str("")) &&
        (!Truthy(successMsg) ==> successMessage == old(successMessage) && errorMessage == old(errorMessage))
      ensures !Nullish(result) && !Truthy(Prop(result, "success")) ==>
        errorMessage == Or(Prop(result, "message"), Str(SERVER_ERROR)) && successMessage == Str("")
      ensures loading == old(loading)
    {
      if Nullish(result) {
        return Threw("TypeError");
      }
      if Truthy(Prop(result, "success")) {
        if Truthy(successMsg) {
          SetSuccess(successMsg);
        }
        return Returned(true);
      }
      SetError(Or(Prop(result, "message"), Str(SERVER_ERROR)));
      return Returned(false);
    }

    /** `checkQueryMessages(route)`: a password reset notice wins over a registration notice. */
    method CheckQueryMessages(query: map<string, Value>)
      requires Valid()
      modifies this
      ensures Valid()
      ensures Truthy(Prop(Obj(query), "passwordReset")) ==>
        successMessage == Str(PASSWORD_RESET_SUCCESS) && errorMessage == Str("")
      ensures !Truthy(Prop(Obj(query), "passwordReset")) && Truthy(Prop(Obj(query), "registered")) ==>
        successMessage == Str(REGISTRATION_SUCCESS) && errorMessage == Str("")
      ensures !Truthy(Prop(Obj(query), "passwordReset")) && !Truthy(Prop(Obj(query), "registered")) ==>
        successMessage == old(successMessage) && errorMessage == old(errorMessage)
      ensures loading == old(loading)
    {
      if Truthy(Prop(Obj(query), "registered")) {
        SetSuccess(Str(REGISTRATION_SUCCESS));
      }
      if Truthy(Prop(Obj(query), "passwordReset")) {
        SetSuccess(Str(PASSWORD_RESET_SUCCESS));
      }
    }
  }
}
