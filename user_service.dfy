/**
 * The account business layer: login, registration, password recovery and change,
 * over the in-memory tables. bcrypt, token generation, JWT signing, the mailer and
 * the clock are not modelled: their outcomes are parameters.
 */
module UserService {
  import opened Wrappers
  import opened Js
  import opened Text
  import opened Tables

  const INVALID_CREDENTIALS: string := "INVALID_CREDENTIALS"
  const USERNAME_TAKEN: string := "USERNAME_TAKEN"
  const EMAIL_TAKEN: string := "EMAIL_TAKEN"
  const EMAIL_FAILED: string := "EMAIL_FAILED"
  const INVALID_TOKEN: string := "INVALID_TOKEN"
  const TOKEN_EXPIRED: string := "TOKEN_EXPIRED"
  const USER_NOT_FOUND: string := "USER_NOT_FOUND"
  const INVALID_CURRENT_PASSWORD: string := "INVALID_CURRENT_PASSWORD"

  const RECOVERY_LINK_PLACEHOLDER: string := "{recoveryLink}"
  const USER_NAME_PLACEHOLDER: string := "{userFullName}"
  const DEFAULT_USER_NAME: string := "Felhasználó"

  /** `generateExpiration(24)`: 24 hours, in milliseconds. */
  const RECOVERY_LIFETIME: int := 24 * 60 * 60 * 1000

  /** A successful login: the formatted user and the JWT signed over it. */
  datatype Session = Session(user: Value, token: string)

  /** The two bodies of the recovery mail. */
  datatype EmailContent = EmailContent(html: string, text: string)

  /** What is handed to `sendMail`. */
  datatype Mail = Mail(to: string, subject: Value, text: string, html: string)

  /** `where: { login_name: username }` */
  function NameIs(username: string): UserRow -> bool {
    (u: UserRow) => u.loginName == username
  }

  /** `where: { email_address: email }` */
  function EmailIs(email: string): UserRow -> bool {
    (u: UserRow) => u.email == email
  }

  /** `where: { account_id: userId }`; only a number equal to the key matches. */
  function IdIs(userId: Value): UserRow -> bool {
    (u: UserRow) => userId == Num(u.accountId)
  }

  /** A user whose stored recovery hash is present and verifies against `token`. */
  predicate TokenMatches(verifyToken: (string, string) -> bool, token: string, u: UserRow) {
    u.recoveryHash.Some? && verifyToken(token, u.recoveryHash.value)
  }

  function TokenIs(verifyToken: (string, string) -> bool, token: string): UserRow -> bool {
    (u: UserRow) => TokenMatches(verifyToken, token, u)
  }

  /** The user `findUserByToken` should return: the first in table order whose hash verifies. */
  function TokenOwner(users: seq<UserRow>, token: string, verifyToken: (string, string) -> bool): (r: Option<nat>)
    ensures r.Some? ==> r.value < |users| && TokenMatches(verifyToken, token, users[r.value])
    ensures r.Some? ==> forall j :: 0 <= j < r.value ==> !TokenMatches(verifyToken, token, users[j])
    ensures r.None? <==> forall j :: 0 <= j < |users| ==> !TokenMatches(verifyToken, token, users[j])
  {
    FirstWhereIsFirst(users, TokenIs(verifyToken, token));
    FirstWhere(users, TokenIs(verifyToken, token))
  }

  function SeasonIdIs(seasonId: int): SeasonRow -> bool {
    (s: SeasonRow) => s.seasonId == seasonId
  }

  /** The `colorSeason` association: the season row the user's `color_season_id` points to. */
  function SeasonOf(seasons: seq<SeasonRow>, seasonId: Option<int>): (r: Option<SeasonRow>)
    ensures r.Some? ==> seasonId.Some? && r.value in seasons && r.value.seasonId == seasonId.value
  {
    if seasonId.None? then None
    else match FirstWhere(seasons, SeasonIdIs(seasonId.value))
      case None => None
      case Some(k) => Some(seasons[k])
  }

  /** With unique season keys, the association finds exactly the row the key was taken from. */
  lemma SeasonOfKey(seasons: seq<SeasonRow>, k: nat)
    requires UniqueSeasons(seasons) && k < |seasons|
    ensures SeasonOf(seasons, Some(seasons[k].seasonId)) == Some(seasons[k])
  {
    FirstWhereIsFirst(seasons, SeasonIdIs(seasons[k].seasonId));
    assert SeasonIdIs(seasons[k].seasonId)(seasons[k]);
  }

  /** A timestamp column as JSON: `null` or the instant. */
  function DateValue(d: Option<int>): Value {
    if d.None? then Null else Num(d.value)
  }

  function Strings(items: seq<string>): (r: seq<Value>)
    ensures |r| == |items| && forall i :: 0 <= i < |items| ==> r[i] == Str(items[i])
  {
    seq(|items|, i requires 0 <= i < |items| => Str(items[i]))
  }

  /**
   * `formatUser`: the client's view of a user. `favoriteColors` is `None` when the
   * association was not loaded (a freshly created user).
   */
  function FormatUser(u: UserRow, season: Option<SeasonRow>, favoriteColors: Option<seq<string>>): (r: Value)
    ensures r.Obj?
    ensures r.fields.Keys == {"id", "username", "email", "fullName", "colorSeason", "colorAnalysisDate", "favoriteColors"}
    ensures r.fields["id"] == Num(u.accountId) && r.fields["username"] == Str(u.loginName)
    ensures r.fields["email"] == Str(u.email) && r.fields["fullName"] == Str(u.fullName)
    ensures r.fields["colorSeason"] == Null <==> season.None?
    ensures season.Some? ==> r.fields["colorSeason"] == Str(season.value.seasonName)
    ensures r.fields["colorAnalysisDate"] == DateValue(u.analysisDate)
    ensures favoriteColors.None? ==> r.fields["favoriteColors"] == Arr([])
    ensures favoriteColors.Some? ==> r.fields["favoriteColors"] == Arr(Strings(favoriteColors.value))
  {
    Obj(map[
      "id" := Num(u.accountId),
      "username" := Str(u.loginName),
      "email" := Str(u.email),
      "fullName" := Str(u.fullName),
      "colorSeason" := (if season.Some? then Str(season.value.seasonName) else Null),
      "colorAnalysisDate" := DateValue(u.analysisDate),
      "favoriteColors" := Arr(if favoriteColors.Some? then Strings(favoriteColors.value) else [])])
  }

  /** A user loaded with both associations (`include: [colorSeason, favoriteColors]`) and formatted. */
  function LoadedUser(store: Store, i: nat): Value
    reads store
    requires i < |store.users|
  {
    var u := store.users[i];
    FormatUser(u, SeasonOf(store.seasons, u.seasonId), Some(ColorsOf(store.favorites, u.accountId)))
  }

  /** `login`: look the user up by name, verify the password, sign a token over the formatted user. */
  function Login(store: Store, username: string, password: string,
                 verifyPassword: (string, string) -> bool, sign: Value -> string): (r: Result<Session>)
    reads store
    ensures r.Err? ==> r.error == INVALID_CREDENTIALS
    ensures r.Ok? ==> r.value.token == sign(r.value.user)
    ensures r.Ok? <==>
      (FirstWhere(store.users, NameIs(username)).Some? &&
       verifyPassword(password, store.users[FirstWhere(store.users, NameIs(username)).value].passwordHash))
    ensures r.Ok? ==> r.value.user == LoadedUser(store, FirstWhere(store.users, NameIs(username)).value)
  {
    match FirstWhere(store.users, NameIs(username))
    case None => Err(INVALID_CREDENTIALS)
    case Some(i) =>
      if !verifyPassword(password, store.users[i].passwordHash) then Err(INVALID_CREDENTIALS)
      else
        var userData := LoadedUser(store, i);
        Ok(Session(userData, sign(userData)))
  }

  /**
   * An unknown name and a wrong password fail alike; login succeeds exactly when the
   * (unique) user of that name has a password hash the password verifies against.
   */
  lemma LoginSucceedsIffPasswordVerifies(store: Store, username: string, password: string,
                                          verifyPassword: (string, string) -> bool, sign: Value -> string)
    requires store.Valid()
    ensures Login(store, username, password, verifyPassword, sign).Ok? <==>
      exists i :: 0 <= i < |store.users| && store.users[i].loginName == username &&
        verifyPassword(password, store.users[i].passwordHash)
  {
    FirstWhereIsFirst(store.users, NameIs(username));
    match FirstWhere(store.users, NameIs(username))
    case None =>
      forall i | 0 <= i < |store.users|
        ensures store.users[i].loginName != username
      {
        assert !NameIs(username)(store.users[i]);
      }
    case Some(k) =>
      forall i | 0 <= i < |store.users| && store.users[i].loginName == username
        ensures i == k
      {
        assert NameIs(username)(store.users[k]);
      }
  }

  /** `checkUserExists`: the message it throws, a taken name winning over a taken email. */
  function CheckUserExists(users: seq<UserRow>, username: string, email: string): (r: Option<string>)
    ensures r == Some(USERNAME_TAKEN) <==> exists u :: u in users && u.loginName == username
    ensures r == Some(EMAIL_TAKEN) <==>
      (forall u :: u in users ==> u.loginName != username) && exists u :: u in users && u.email == email
    ensures r.None? <==> forall u :: u in users ==> u.loginName != username && u.email != email
  {
    if exists u :: u in users && u.loginName == username then Some(USERNAME_TAKEN)
    else if exists u :: u in users && u.email == email then Some(EMAIL_TAKEN)
    else None
  }

  /** The row `register` creates; `hash` is the bcrypt hash of the password, `newId` the next key. */
  function NewUser(newId: int, username: string, hash: string, email: string, fullName: string): UserRow {
    UserRow(newId, username, hash, email, fullName, None, None, None, None)
  }

  /**
   * `formatUser(newUser)` for the instance `User.create` returns: no association is loaded, and
   * `color_analysis_date`, which has no value and no default, is not set on the instance, so it
   * reads as `undefined` where a stored row gives `null`.
   */
  function FormatCreatedUser(u: UserRow): (r: Value)
    ensures r.Obj? && r.fields.Keys == FormatUser(u, None, None).fields.Keys
    ensures r.fields["colorAnalysisDate"] == Undefined
    ensures r.fields["colorSeason"] == Null && r.fields["favoriteColors"] == Arr([])
    ensures forall k :: k in r.fields && k != "colorAnalysisDate" ==> r.fields[k] == FormatUser(u, None, None).fields[k]
  {
    Obj(FormatUser(u, None, None).fields["colorAnalysisDate" := Undefined])
  }

  /** `register`: a duplicate throws and creates nothing; otherwise one row is appended. */
  method Register(store: Store, username: string, email: string, fullName: string, hash: string, newId: int)
    returns (r: Call<Result<Value>>)
    requires store.Valid()
    requires forall u :: u in store.users ==> u.accountId != newId
    modifies store
    ensures store.Valid()
    ensures store.seasons == old(store.seasons) && store.favorites == old(store.favorites)
    ensures CheckUserExists(old(store.users), username, email).Some? ==>
      r == Threw(CheckUserExists(old(store.users), username, email).value) && store.users == old(store.users)
    ensures CheckUserExists(old(store.users), username, email).None? ==>
      var row := NewUser(newId, username, hash, email, fullName);
      store.users == old(store.users) + [row] && r == Returned(Ok(FormatCreatedUser(row)))
  {
    var taken := CheckUserExists(store.users, username, email);
    if taken.Some? {
      return Threw(taken.value);
    }
    var row := NewUser(newId, username, hash, email, fullName);
    store.CreateUser(row);
    r := Returned(Ok(FormatCreatedUser(row)));
  }

  /** Every `{recoveryLink}`, then every `{userFullName}`, replaced (`.replace(/…/g, …)` twice). */
  function Fill(s: string, resetLink: string, userName: string): string {
    ReplaceAll(ReplaceAll(s, RECOVERY_LINK_PLACEHOLDER, resetLink), USER_NAME_PLACEHOLDER, userName)
  }

  /** `userName = 'Felhasználó'`: the default applies to `undefined`; any other value is converted with `String()`. */
  function NameArg(userName: Value): (r: string)
    ensures userName == Undefined ==> r == DEFAULT_USER_NAME
    ensures userName.Str? ==> r == userName.s
  {
    if userName == Undefined then DEFAULT_USER_NAME else ToStr(userName)
  }

  /**
   * `prepareEmailContent(template, resetLink, userName = 'Felhasználó')`. `None` stands for the
   * TypeError raised when `html`, or a truthy `text`, is not a string.
   */
  function PrepareEmailContent(template: Value, resetLink: string, userName: Value): (r: Option<EmailContent>)
    ensures r.Some? <==>
      Prop(template, "html").Str? && (Truthy(Prop(template, "text")) ==> Prop(template, "text").Str?)
    ensures r.Some? ==> r.value.html == Fill(Prop(template, "html").s, resetLink, NameArg(userName))
    ensures r.Some? && Truthy(Prop(template, "text")) ==>
      r.value.text == Fill(Prop(template, "text").s, resetLink, NameArg(userName))
    ensures r.Some? && !Truthy(Prop(template, "text")) ==> r.value.text == ""
  {
    var name := NameArg(userName);
    var html := Prop(template, "html");
    var text := Prop(template, "text");
    if !html.Str? || (Truthy(text) && !text.Str?) then None
    else Some(EmailContent(Fill(html.s, resetLink, name), if Truthy(text) then Fill(text.s, resetLink, name) else ""))
  }

  /** With `$`-free link and name, filling a body is two rounds of split-on-placeholder and join. */
  lemma FillIsSplitJoin(s: string, resetLink: string, userName: string)
    requires '$' !in resetLink && '$' !in userName
    ensures Fill(s, resetLink, userName) ==
      Join(Split(Join(Split(s, RECOVERY_LINK_PLACEHOLDER), resetLink), USER_NAME_PLACEHOLDER), userName)
  {
    ReplaceAllIsSplitJoin(s, RECOVERY_LINK_PLACEHOLDER, resetLink);
    ReplaceAllIsSplitJoin(ReplaceAll(s, RECOVERY_LINK_PLACEHOLDER, resetLink), USER_NAME_PLACEHOLDER, userName);
  }

  /** A body without placeholders is sent as written. */
  lemma FillWithoutPlaceholders(s: string, resetLink: string, userName: string)
    requires !Contains(s, RECOVERY_LINK_PLACEHOLDER) && !Contains(s, USER_NAME_PLACEHOLDER)
    ensures Fill(s, resetLink, userName) == s
  {
    ReplaceAllAbsent(s, RECOVERY_LINK_PLACEHOLDER, resetLink);
    ReplaceAllAbsent(s, USER_NAME_PLACEHOLDER, userName);
  }

  /** The link the mail carries; `encodeUri` is `encodeURIComponent`. */
  function ResetLink(frontendUrl: string, token: string, email: string, encodeUri: string -> string): string {
    frontendUrl + "/reset-password?token=" + token + "&email=" + encodeUri(email)
  }

  /** A user row with a fresh recovery token stored. */
  function WithRecovery(u: UserRow, tokenHash: string, expires: int): (v: UserRow) {
    u.(recoveryHash := Some(tokenHash), recoveryExpires := Some(expires))
  }

  /**
   * `forgotPassword`: an unknown email succeeds silently; a known one stores the token's
   * hash and an expiry 24 hours from `now`, then mails the link. `mailSent` is what the
   * mailer reports.
   */
  method ForgotPassword(store: Store, email: string, template: Value, token: string, tokenHash: string,
                        now: int, frontendUrl: string, encodeUri: string -> string, mailSent: bool)
    returns (r: Call<Result<()>>, mail: Option<Mail>)
    requires store.Valid()
    modifies store
    ensures store.Valid()
    ensures store.seasons == old(store.seasons) && store.favorites == old(store.favorites)
    ensures FirstWhere(old(store.users), EmailIs(email)).None? ==>
      r == Returned(Ok(())) && mail.None? && store.users == old(store.users)
    ensures FirstWhere(old(store.users), EmailIs(email)).Some? ==>
      var i := FirstWhere(old(store.users), EmailIs(email)).value;
      var content := PrepareEmailContent(template, ResetLink(frontendUrl, token, email, encodeUri), Str(old(store.users)[i].fullName));
      store.users == old(store.users)[i := WithRecovery(old(store.users)[i], tokenHash, now + RECOVERY_LIFETIME)] &&
      (content.None? ==> r.Threw? && mail.None?) &&
      (content.Some? ==> mail == Some(Mail(email, Prop(template, "subject"), content.value.text, content.value.html)) &&
                         r == Returned(if mailSent then Ok(()) else Err(EMAIL_FAILED)))
  {
    var found := FirstWhere(store.users, EmailIs(email));
    if found.None? {
      return Returned(Ok(())), None;
    }
    var i := found.value;
    var u := store.users[i];
    store.UpdateUser(i, WithRecovery(u, tokenHash, now + RECOVERY_LIFETIME));
    var content := PrepareEmailContent(template, ResetLink(frontendUrl, token, email, encodeUri), Str(u.fullName));
    if content.None? {
      return Threw("TypeError"), None;
    }
    mail := Some(Mail(email, Prop(template, "subject"), content.value.text, content.value.html));
    if !mailSent {
      return Returned(Err(EMAIL_FAILED)), mail;
    }
    r := Returned(Ok(()));
  }

  /** `findUserByToken`: walk the users holding a recovery hash, in order, and stop at the first that verifies. */
  method FindUserByToken(store: Store, token: string, verifyToken: (string, string) -> bool) returns (r: Option<nat>)
    ensures r == TokenOwner(store.users, token, verifyToken)
    ensures r.Some? ==> r.value < |store.users| && TokenMatches(verifyToken, token, store.users[r.value])
  {
    var users := store.users;
    FirstWhereIsFirst(users, TokenIs(verifyToken, token));
    var i := 0;
    while i < |users|
      invariant 0 <= i <= |users|
      invariant forall j :: 0 <= j < i ==> !TokenIs(verifyToken, token)(users[j])
    {
      var u := users[i];
      if u.recoveryHash.Some? && verifyToken(token, u.recoveryHash.value) {
        assert TokenIs(verifyToken, token)(users[i]);
        return Some(i);
      }
      i := i + 1;
    }
    return None;
  }

  /** `isExpired(d)`: now is strictly later; a missing date reads as the epoch. */
  predicate Expired(now: int, expires: Option<int>)
    ensures expires.Some? && now <= expires.value ==> !Expired(now, expires)
    ensures expires.None? && now > 0 ==> Expired(now, expires)
  {
    now > expires.GetOr(0)
  }

  /** A user row after a password reset: new hash, recovery fields cleared. */
  function AfterReset(u: UserRow, newHash: string): UserRow {
    u.(passwordHash := newHash, recoveryHash := None, recoveryExpires := None)
  }

  /** A recovery token is single-use: after a reset the row matches no token at all. */
  lemma ResetClearsToken(u: UserRow, newHash: string, verifyToken: (string, string) -> bool, token: string)
    ensures !TokenMatches(verifyToken, token, AfterReset(u, newHash))
  {
  }

  /** `resetPassword`; `newHash` is the bcrypt hash of the new password. */
  method ResetPassword(store: Store, token: string, newHash: string, now: int,
                       verifyToken: (string, string) -> bool) returns (r: Result<()>)
    requires store.Valid()
    modifies store
    ensures store.Valid()
    ensures store.seasons == old(store.seasons) && store.favorites == old(store.favorites)
    ensures var owner := TokenOwner(old(store.users), token, verifyToken);
      (owner.None? ==> r == Err(INVALID_TOKEN) && store.users == old(store.users)) &&
      (owner.Some? && Expired(now, old(store.users)[owner.value].recoveryExpires) ==>
        r == Err(TOKEN_EXPIRED) && store.users == old(store.users)) &&
      (owner.Some? && !Expired(now, old(store.users)[owner.value].recoveryExpires) ==>
        r == Ok(()) && store.users == old(store.users)[owner.value := AfterReset(old(store.users)[owner.value], newHash)])
  {
    var owner := FindUserByToken(store, token, verifyToken);
    if owner.None? {
      return Err(INVALID_TOKEN);
    }
    var i := owner.value;
    if Expired(now, store.users[i].recoveryExpires) {
      return Err(TOKEN_EXPIRED);
    }
    store.UpdateUser(i, AfterReset(store.users[i], newHash));
    r := Ok(());
  }

  /** `changePassword`: the current password must verify; `newHash` is the hash of the new one. */
  method ChangePassword(store: Store, userId: Value, currentPassword: string, newHash: string,
                        verifyPassword: (string, string) -> bool) returns (r: Result<()>)
    requires store.Valid()
    modifies store
    ensures store.Valid()
    ensures store.seasons == old(store.seasons) && store.favorites == old(store.favorites)
    ensures var found := FirstWhere(old(store.users), IdIs(userId));
      (found.None? ==> r == Err(USER_NOT_FOUND) && store.users == old(store.users)) &&
      (found.Some? && !verifyPassword(currentPassword, old(store.users)[found.value].passwordHash) ==>
        r == Err(INVALID_CURRENT_PASSWORD) && store.users == old(store.users)) &&
      (found.Some? && verifyPassword(currentPassword, old(store.users)[found.value].passwordHash) ==>
        r == Ok(()) &&
        store.users == old(store.users)[found.value := old(store.users)[found.value].(passwordHash := newHash)])
  {
    var found := FirstWhere(store.users, IdIs(userId));
    if found.None? {
      return Err(USER_NOT_FOUND);
    }
    var i := found.value;
    if !verifyPassword(currentPassword, store.users[i].passwordHash) {
      return Err(INVALID_CURRENT_PASSWORD);
    }
    store.UpdateUser(i, store.users[i].(passwordHash := newHash));
    r := Ok(());
  }
}
