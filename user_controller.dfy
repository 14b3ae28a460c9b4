/**
 * The user controller: input checks on the raw request values, then the business
 * layer; and the season and favourite-colour operations on the tables.
 * Request values are JavaScript values; where the code hands one to a string
 * operation or a query, it is converted with `String()`.
 */
module UserController {
  import opened Wrappers
  import opened Js
  import opened Text
  import opened Tables
  import UserService

  const USERNAME_AND_PASSWORD_REQUIRED: string := "USERNAME_AND_PASSWORD_REQUIRED"
  const INVALID_CREDENTIALS_FORMAT: string := "INVALID_CREDENTIALS_FORMAT"
  const MISSING_REQUIRED_FIELDS: string := "MISSING_REQUIRED_FIELDS"
  const USERNAME_TOO_SHORT: string := "USERNAME_TOO_SHORT"
  const PASSWORD_TOO_SHORT: string := "PASSWORD_TOO_SHORT"
  const INVALID_EMAIL_FORMAT: string := "INVALID_EMAIL_FORMAT"
  const TOKEN_AND_PASSWORD_REQUIRED: string := "TOKEN_AND_PASSWORD_REQUIRED"
  const INVALID_SEASON: string := "INVALID_SEASON"
  const USER_NOT_FOUND: string := "USER_NOT_FOUND"
  const SEASON_NOT_FOUND: string := "SEASON_NOT_FOUND"
  const UPDATE_FAILED: string := "UPDATE_FAILED"
  const INVALID_HEX_COLOR: string := "INVALID_HEX_COLOR"
  const COLOR_ALREADY_EXISTS: string := "COLOR_ALREADY_EXISTS"

  const VALID_SEASONS: seq<string> := ["spring", "summer", "autumn", "winter"]

  // ---------------------------------------------------------------- email regex

  /** A character of `[^\s@]`. */
  predicate EmailChar(c: char) {
    c != '@' && !IsJsSpace(c)
  }

  predicate AllEmailChars(t: string) {
    forall k :: 0 <= k < |t| ==> EmailChar(t[k])
  }

  /**
   * The strings `/^[^\s@]+@[^\s@]+\.[^\s@]+$/` accepts: one `@` after a non-empty local part,
   * a `.` with at least one character on each side of it after the `@`, and no other `@`
   * and no whitespace anywhere.
   */
  ghost predicate MatchesEmailPattern(s: string) {
    exists at, dot :: 0 < at && at + 1 < dot && dot + 1 < |s| && s[at] == '@' && s[dot] == '.' &&
      forall k :: 0 <= k < |s| && k != at ==> EmailChar(s[k])
  }

  /** `emailRegex.test(s)`, decided by locating the first `@`. */
  predicate IsEmail(s: string)
    ensures IsEmail(s) ==> 5 <= |s| && forall k :: 0 <= k < |s| ==> !IsJsSpace(s[k])
  {
    match IndexOf(s, "@")
    case None => false
    case Some(at) =>
      0 < at && at + 2 < |s| && AllEmailChars(s[..at]) && AllEmailChars(s[at + 1..]) &&
      Contains(s[at + 2..|s| - 1], ".")
  }

  lemma OccursAtChar(s: string, c: char, i: nat)
    ensures OccursAt(s, [c], i) <==> i < |s| && s[i] == c
  {
    if i < |s| {
      assert s[i..i + 1] == [s[i]];
    }
  }

  /** Every string the decision procedure accepts is in the language of the pattern. */
  lemma IsEmailSound(s: string)
    requires IsEmail(s)
    ensures MatchesEmailPattern(s)
  {
    var at := IndexOf(s, "@").value;
    OccursAtChar(s, '@', at);
    var t := s[at + 2..|s| - 1];
    ContainsIffOccurs(t, ".");
    var i: nat :| OccursAt(t, ".", i);
    OccursAtChar(t, '.', i);
    var dot := at + 2 + i;
    assert s[dot] == t[i];
    var before, after := s[..at], s[at + 1..];
    forall k | 0 <= k < |s| && k != at
      ensures EmailChar(s[k])
    {
      if k < at {
        assert s[k] == before[k];
      } else {
        assert s[k] == after[k - at - 1];
      }
    }
  }

  /** Every string in the language of the pattern is accepted by the decision procedure. */
  lemma IsEmailComplete(s: string)
    requires MatchesEmailPattern(s)
    ensures IsEmail(s)
  {
    var at', dot :| 0 < at' && at' + 1 < dot && dot + 1 < |s| && s[at'] == '@' && s[dot] == '.' &&
      forall k :: 0 <= k < |s| && k != at' ==> EmailChar(s[k]);
    IndexOfFromIsFirst(s, "@", 0);
    OccursAtChar(s, '@', at');
    var at := IndexOf(s, "@").value;
    OccursAtChar(s, '@', at);
    assert at == at';
    var t := s[at + 2..|s| - 1];
    assert t[dot - at - 2] == '.';
    OccursAtChar(t, '.', dot - at - 2);
    ContainsIffOccurs(t, ".");
    var after := s[at + 1..];
    forall k | 0 <= k < |after|
      ensures EmailChar(after[k])
    {
      assert after[k] == s[at + 1 + k];
    }
  }

  /** The decision procedure accepts exactly the language of the email pattern. */
  lemma IsEmailMatchesPattern(s: string)
    ensures IsEmail(s) <==> MatchesEmailPattern(s)
  {
    if IsEmail(s) {
      IsEmailSound(s);
    }
    if MatchesEmailPattern(s) {
      IsEmailComplete(s);
    }
  }

  // ---------------------------------------------------------------- hex colour regex

  predicate IsHexDigit(c: char) {
    '0' <= c <= '9' || 'A' <= c <= 'F' || 'a' <= c <= 'f'
  }

  /** `/^#[0-9A-Fa-f]{6}$/.test(s)`. */
  predicate IsHexColor(s: string)
    ensures IsHexColor(s) ==> CodeUnits(s) == 7
  {
    |s| == 7 && s[0] == '#' && forall k :: 1 <= k < 7 ==> IsHexDigit(s[k])
  }

  // ---------------------------------------------------------------- guards in front of the business layer

  /** `login(username, password)`: presence, then length, then the business layer. */
  function Login(store: Store, username: Value, password: Value,
                 verifyPassword: (string, string) -> bool, sign: Value -> string): (r: Result<UserService.Session>)
    reads store
    ensures !Truthy(username) || !Truthy(password) ==> r == Err(USERNAME_AND_PASSWORD_REQUIRED)
    ensures Truthy(username) && Truthy(password) && (LengthBelow(username, 3) || LengthBelow(password, 6)) ==>
      r == Err(INVALID_CREDENTIALS_FORMAT)
    ensures r.Ok? ==> !LengthBelow(username, 3) && !LengthBelow(password, 6)
    ensures Truthy(username) && Truthy(password) && !LengthBelow(username, 3) && !LengthBelow(password, 6) ==>
      r == UserService.Login(store, ToStr(username), ToStr(password), verifyPassword, sign)
  {
    if !Truthy(username) || !Truthy(password) then Err(USERNAME_AND_PASSWORD_REQUIRED)
    else if LengthBelow(username, 3) || LengthBelow(password, 6) then Err(INVALID_CREDENTIALS_FORMAT)
    else UserService.Login(store, ToStr(username), ToStr(password), verifyPassword, sign)
  }

  /** `userData` is truthy and so are its `username`, `password`, `email` and `fullName`. */
  predicate AllRegisterFields(userData: Value) {
    Truthy(userData) && Truthy(Prop(userData, "username")) && Truthy(Prop(userData, "password")) &&
    Truthy(Prop(userData, "email")) && Truthy(Prop(userData, "fullName"))
  }

  /** The first of `register`'s checks that fails, if any. */
  function RegisterCheck(userData: Value): (r: Option<string>)
    ensures r == Some(MISSING_REQUIRED_FIELDS) <==> !AllRegisterFields(userData)
    ensures r == Some(USERNAME_TOO_SHORT) <==> AllRegisterFields(userData) && LengthBelow(Prop(userData, "username"), 3)
    ensures r == Some(PASSWORD_TOO_SHORT) <==>
      AllRegisterFields(userData) && !LengthBelow(Prop(userData, "username"), 3) && LengthBelow(Prop(userData, "password"), 6)
    ensures r == Some(INVALID_EMAIL_FORMAT) <==>
      AllRegisterFields(userData) && !LengthBelow(Prop(userData, "username"), 3) &&
      !LengthBelow(Prop(userData, "password"), 6) && !IsEmail(ToStr(Prop(userData, "email")))
    ensures r.None? <==>
      AllRegisterFields(userData) && !LengthBelow(Prop(userData, "username"), 3) &&
      !LengthBelow(Prop(userData, "password"), 6) && IsEmail(ToStr(Prop(userData, "email")))
  {
    if !AllRegisterFields(userData) then Some(MISSING_REQUIRED_FIELDS)
    else if LengthBelow(Prop(userData, "username"), 3) then Some(USERNAME_TOO_SHORT)
    else if LengthBelow(Prop(userData, "password"), 6) then Some(PASSWORD_TOO_SHORT)
    else if !IsEmail(ToStr(Prop(userData, "email"))) then Some(INVALID_EMAIL_FORMAT)
    else None
  }

  /** The checks run in order: a missing field hides every later problem, and so on down the list. */
  lemma RegisterCheckOrder(userData: Value)
    ensures RegisterCheck(userData) == Some(MISSING_REQUIRED_FIELDS) <==>
      !Truthy(userData) || exists f :: f in ["username", "password", "email", "fullName"] && !Truthy(Prop(userData, f))
    ensures RegisterCheck(userData) == Some(USERNAME_TOO_SHORT) ==> Truthy(Prop(userData, "email"))
    ensures RegisterCheck(userData) == Some(PASSWORD_TOO_SHORT) ==>
      Truthy(Prop(userData, "email")) && !LengthBelow(Prop(userData, "username"), 3)
    ensures RegisterCheck(userData) == Some(INVALID_EMAIL_FORMAT) ==>
      !LengthBelow(Prop(userData, "username"), 3) && !LengthBelow(Prop(userData, "password"), 6) &&
      !MatchesEmailPattern(ToStr(Prop(userData, "email")))
    ensures RegisterCheck(userData).None? <==>
      AllRegisterFields(userData) && !LengthBelow(Prop(userData, "username"), 3) &&
      !LengthBelow(Prop(userData, "password"), 6) && MatchesEmailPattern(ToStr(Prop(userData, "email")))
  {
    IsEmailMatchesPattern(ToStr(Prop(userData, "email")));
    if !Truthy(userData) || !Truthy(Prop(userData, "username")) || !Truthy(Prop(userData, "password"))
       || !Truthy(Prop(userData, "email")) || !Truthy(Prop(userData, "fullName")) {
      if !Truthy(Prop(userData, "username")) {
        assert "username" in ["username", "password", "email", "fullName"];
      } else if !Truthy(Prop(userData, "password")) {
        assert "password" in ["username", "password", "email", "fullName"];
      } else if !Truthy(Prop(userData, "email")) {
        assert "email" in ["username", "password", "email", "fullName"];
      } else if !Truthy(Prop(userData, "fullName")) {
        assert "fullName" in ["username", "password", "email", "fullName"];
      }
    }
  }

  /** `register(userData)`: the checks, then the business layer (which may throw). */
  method Register(store: Store, userData: Value, hash: string, newId: int) returns (r: Call<Result<Value>>)
    requires store.Valid()
    requires forall u :: u in store.users ==> u.accountId != newId
    modifies store
    ensures store.Valid()
    ensures RegisterCheck(userData).Some? ==>
      r == Returned(Err(RegisterCheck(userData).value)) &&
      store.users == old(store.users) && store.seasons == old(store.seasons) && store.favorites == old(store.favorites)
    ensures store.seasons == old(store.seasons) && store.favorites == old(store.favorites)
    ensures RegisterCheck(userData).None? ==>
      var name, email := ToStr(Prop(userData, "username")), ToStr(Prop(userData, "email"));
      var taken := UserService.CheckUserExists(old(store.users), name, email);
      (taken.Some? ==> r == Threw(taken.value) && store.users == old(store.users)) &&
      (taken.None? ==>
        var row := UserService.NewUser(newId, name, hash, email, ToStr(Prop(userData, "fullName")));
        store.users == old(store.users) + [row] && r == Returned(Ok(UserService.FormatCreatedUser(row))))
  {
    var check := RegisterCheck(userData);
    if check.Some? {
      return Returned(Err(check.value));
    }
    r := UserService.Register(store, ToStr(Prop(userData, "username")), ToStr(Prop(userData, "email")),
                              ToStr(Prop(userData, "fullName")), hash, newId);
  }

  /** The checks `resetPassword` makes before the business layer. */
  function ResetPasswordCheck(token: Value, newPassword: Value): (r: Option<string>)
    ensures r.None? <==> Truthy(token) && Truthy(newPassword) && !LengthBelow(newPassword, 6)
    ensures !Truthy(token) || !Truthy(newPassword) ==> r == Some(TOKEN_AND_PASSWORD_REQUIRED)
    ensures r.Some? && Truthy(token) && Truthy(newPassword) ==> r == Some(PASSWORD_TOO_SHORT)
  {
    if !Truthy(token) || !Truthy(newPassword) then Some(TOKEN_AND_PASSWORD_REQUIRED)
    else if LengthBelow(newPassword, 6) then Some(PASSWORD_TOO_SHORT)
    else None
  }

  /** `resetPassword(token, newPassword)`; `newHash` is the hash of the new password. */
  method ResetPassword(store: Store, token: Value, newPassword: Value, newHash: string, now: int,
                       verifyToken: (string, string) -> bool) returns (r: Result<()>)
    requires store.Valid()
    modifies store
    ensures store.Valid()
    ensures ResetPasswordCheck(token, newPassword).Some? ==>
      r == Err(ResetPasswordCheck(token, newPassword).value) && store.users == old(store.users)
    ensures store.seasons == old(store.seasons) && store.favorites == old(store.favorites)
    ensures ResetPasswordCheck(token, newPassword).None? ==>
      var owner := UserService.TokenOwner(old(store.users), ToStr(token), verifyToken);
      (owner.None? ==> r == Err(UserService.INVALID_TOKEN) && store.users == old(store.users)) &&
      (owner.Some? && UserService.Expired(now, old(store.users)[owner.value].recoveryExpires) ==>
        r == Err(UserService.TOKEN_EXPIRED) && store.users == old(store.users)) &&
      (owner.Some? && !UserService.Expired(now, old(store.users)[owner.value].recoveryExpires) ==>
        r == Ok(()) &&
        store.users == old(store.users)[owner.value := UserService.AfterReset(old(store.users)[owner.value], newHash)])
  {
    var check := ResetPasswordCheck(token, newPassword);
    if check.Some? {
      return Err(check.value);
    }
    r := UserService.ResetPassword(store, ToStr(token), newHash, now, verifyToken);
  }

  /** The checks `changePassword` makes before the business layer. */
  function ChangePasswordCheck(userId: Value, currentPassword: Value, newPassword: Value): (r: Option<string>)
    ensures r.None? <==> Truthy(userId) && Truthy(currentPassword) && Truthy(newPassword) && !LengthBelow(newPassword, 6)
    ensures !Truthy(userId) || !Truthy(currentPassword) || !Truthy(newPassword) ==> r == Some(MISSING_REQUIRED_FIELDS)
    ensures r.Some? && Truthy(userId) && Truthy(currentPassword) && Truthy(newPassword) ==> r == Some(PASSWORD_TOO_SHORT)
  {
    if !Truthy(userId) || !Truthy(currentPassword) || !Truthy(newPassword) then Some(MISSING_REQUIRED_FIELDS)
    else if LengthBelow(newPassword, 6) then Some(PASSWORD_TOO_SHORT)
    else None
  }

  /** `changePassword(userId, currentPassword, newPassword)`. */
  method ChangePassword(store: Store, userId: Value, currentPassword: Value, newPassword: Value, newHash: string,
                        verifyPassword: (string, string) -> bool) returns (r: Result<()>)
    requires store.Valid()
    modifies store
    ensures store.Valid()
    ensures ChangePasswordCheck(userId, currentPassword, newPassword).Some? ==>
      r == Err(ChangePasswordCheck(userId, currentPassword, newPassword).value) && store.users == old(store.users)
    ensures store.seasons == old(store.seasons) && store.favorites == old(store.favorites)
    ensures ChangePasswordCheck(userId, currentPassword, newPassword).None? ==>
      var found := FirstWhere(old(store.users), UserService.IdIs(userId));
      (found.None? ==> r == Err(UserService.USER_NOT_FOUND) && store.users == old(store.users)) &&
      (found.Some? && !verifyPassword(ToStr(currentPassword), old(store.users)[found.value].passwordHash) ==>
        r == Err(UserService.INVALID_CURRENT_PASSWORD) && store.users == old(store.users)) &&
      (found.Some? && verifyPassword(ToStr(currentPassword), old(store.users)[found.value].passwordHash) ==>
        r == Ok(()) &&
        store.users == old(store.users)[found.value := old(store.users)[found.value].(passwordHash := newHash)])
  {
    var check := ChangePasswordCheck(userId, currentPassword, newPassword);
    if check.Some? {
      return Err(check.value);
    }
    r := UserService.ChangePassword(store, userId, ToStr(currentPassword), newHash, verifyPassword);
  }

  // ---------------------------------------------------------------- colour season

  /** `formatUserWithSeason`: the profile fields without the favourites. */
  function FormatUserWithSeason(u: UserRow, season: Option<SeasonRow>): (r: Value)
    ensures r.Obj? && r.fields.Keys == {"id", "username", "email", "fullName", "colorSeason", "colorAnalysisDate"}
    ensures r.fields["colorSeason"] == Null <==> season.None?
    ensures season.Some? ==> r.fields["colorSeason"] == Str(season.value.seasonName)
  {
    Obj(map[
      "id" := Num(u.accountId),
      "username" := Str(u.loginName),
      "email" := Str(u.email),
      "fullName" := Str(u.fullName),
      "colorSeason" := (if season.Some? then Str(season.value.seasonName) else Null),
      "colorAnalysisDate" := UserService.DateValue(u.analysisDate)])
  }

  /** It is the business layer's `formatUser` without `favoriteColors`. */
  lemma FormatUserWithSeasonIsFormatUser(u: UserRow, season: Option<SeasonRow>, colors: Option<seq<string>>)
    ensures FormatUserWithSeason(u, season).fields ==
      UserService.FormatUser(u, season, colors).fields - {"favoriteColors"}
  {
  }

  /** `where: { season_name: name }` */
  function SeasonNamed(name: string): SeasonRow -> bool {
    (s: SeasonRow) => s.seasonName == name
  }

  /**
   * `updateColorSeason(userId, season)`. `now` is the clock; `dbFault` says the update
   * inside the `try` throws.
   */
  method UpdateColorSeason(store: Store, userId: Value, season: Value, now: int, dbFault: bool) returns (r: Result<Value>)
    requires store.Valid()
    modifies store
    ensures store.Valid()
    ensures store.seasons == old(store.seasons) && store.favorites == old(store.favorites)
    ensures r.Ok? <==>
      (Truthy(userId) && season in [Str("spring"), Str("summer"), Str("autumn"), Str("winter")] &&
       FirstWhere(old(store.users), UserService.IdIs(userId)).Some? &&
       FirstWhere(old(store.seasons), SeasonNamed(season.s)).Some? && !dbFault)
    ensures !Truthy(userId) || !Truthy(season) ==> r == Err(MISSING_REQUIRED_FIELDS)
    ensures Truthy(userId) && Truthy(season) && season !in [Str("spring"), Str("summer"), Str("autumn"), Str("winter")] ==>
      r == Err(INVALID_SEASON)
    ensures Truthy(userId) && season in [Str("spring"), Str("summer"), Str("autumn"), Str("winter")] ==>
      var found := FirstWhere(old(store.users), UserService.IdIs(userId));
      var seasonRow := FirstWhere(old(store.seasons), SeasonNamed(season.s));
      (found.None? ==> r == Err(USER_NOT_FOUND)) &&
      (found.Some? && seasonRow.None? ==> r == Err(SEASON_NOT_FOUND)) &&
      (found.Some? && seasonRow.Some? && dbFault ==> r == Err(UPDATE_FAILED))
    ensures r.Err? ==> store.users == old(store.users)
    ensures r.Ok? ==>
      var i := FirstWhere(old(store.users), UserService.IdIs(userId)).value;
      var row := old(store.seasons)[FirstWhere(old(store.seasons), SeasonNamed(season.s)).value];
      store.users == old(store.users)[i := WithSeason(old(store.users)[i], row.seasonId, now)] &&
      r.value == FormatUserWithSeason(store.users[i], Some(row))
  {
    if !Truthy(userId) || !Truthy(season) {
      return Err(MISSING_REQUIRED_FIELDS);
    }
    if season !in [Str("spring"), Str("summer"), Str("autumn"), Str("winter")] {
      return Err(INVALID_SEASON);
    }
    var found := FirstWhere(store.users, UserService.IdIs(userId));
    if found.None? {
      return Err(USER_NOT_FOUND);
    }
    var seasonRow := FirstWhere(store.seasons, SeasonNamed(season.s));
    if seasonRow.None? {
      return Err(SEASON_NOT_FOUND);
    }
    if dbFault {
      return Err(UPDATE_FAILED);
    }
    var i := found.value;
    var row := store.seasons[seasonRow.value];
    store.UpdateUser(i, WithSeason(store.users[i], row.seasonId, now));
    // the reload with the `colorSeason` association finds the row just linked
    UserService.SeasonOfKey(store.seasons, seasonRow.value);
    r := Ok(FormatUserWithSeason(store.users[i], UserService.SeasonOf(store.seasons, store.users[i].seasonId)));
  }

  /** The whitelist is exactly the four season names, compared as strings. */
  lemma SeasonWhitelist(season: Value)
    ensures season in [Str("spring"), Str("summer"), Str("autumn"), Str("winter")] <==>
      season.Str? && season.s in VALID_SEASONS
  {
  }

  // ---------------------------------------------------------------- favourite colours

  /** `where: { user_id, color_hex }` for a whole row. */
  function RowIs(row: FavoriteRow): FavoriteRow -> bool {
    (f: FavoriteRow) => f == row
  }

  /** The favourites table after `record.destroy()` on the first row equal to `row`, if there is one. */
  function Removed(favorites: seq<FavoriteRow>, row: FavoriteRow): (r: seq<FavoriteRow>)
    ensures |r| <= |favorites|
  {
    match FirstWhere(favorites, RowIs(row))
    case None => favorites
    case Some(k) => favorites[..k] + favorites[k + 1..]
  }

  /** Removing a row that is not there changes nothing. */
  lemma RemovedAbsent(favorites: seq<FavoriteRow>, row: FavoriteRow)
    requires row !in favorites
    ensures Removed(favorites, row) == favorites
  {
    FirstWhereIsFirst(favorites, RowIs(row));
  }

  /** Removing a row destroys exactly one copy of it and nothing else. */
  lemma RemovedOneCopy(favorites: seq<FavoriteRow>, row: FavoriteRow)
    requires row in favorites
    ensures multiset(Removed(favorites, row)) == multiset(favorites) - multiset{row}
  {
    FirstWhereIsFirst(favorites, RowIs(row));
    var k := FirstWhere(favorites, RowIs(row)).value;
    assert favorites == favorites[..k] + [favorites[k]] + favorites[k + 1..];
  }

  /** Adding a colour and then removing it gives back the table it was added to. */
  lemma {:induction false} AddThenRemove(favorites: seq<FavoriteRow>, row: FavoriteRow)
    requires row !in favorites
    ensures Removed(favorites + [row], row) == favorites
  {
    var p := RowIs(row);
    FirstWhereIsFirst(favorites + [row], p);
    assert p((favorites + [row])[|favorites|]);
    var k := FirstWhere(favorites + [row], p).value;
    assert (favorites + [row])[k] == row;
    assert k == |favorites|;
    assert (favorites + [row])[..k] == favorites;
  }

  /**
   * `addFavoriteColor(userId, colorHex)`. `dbFault` says the first query inside the `try`
   * throws.
   */
  method AddFavoriteColor(store: Store, userId: Value, colorHex: Value, dbFault: bool) returns (r: Result<seq<string>>)
    requires store.Valid()
    modifies store
    ensures store.Valid()
    ensures store.users == old(store.users) && store.seasons == old(store.seasons)
    ensures !Truthy(userId) || !Truthy(colorHex) ==> r == Err(MISSING_REQUIRED_FIELDS)
    ensures Truthy(userId) && Truthy(colorHex) && !IsHexColor(ToStr(colorHex)) ==> r == Err(INVALID_HEX_COLOR)
    ensures (Truthy(userId) && Truthy(colorHex) && IsHexColor(ToStr(colorHex)) &&
             FirstWhere(old(store.users), UserService.IdIs(userId)).None?) ==> r == Err(USER_NOT_FOUND)
    ensures r.Err? ==> store.favorites == old(store.favorites)
    ensures r.Ok? ==>
      var i := FirstWhere(old(store.users), UserService.IdIs(userId)).value;
      var id := old(store.users)[i].accountId;
      IsHexColor(ToStr(colorHex)) && FavoriteRow(id, ToStr(colorHex)) !in old(store.favorites) &&
      store.favorites == old(store.favorites) + [FavoriteRow(id, ToStr(colorHex))] &&
      r.value == ColorsOf(old(store.favorites), id) + [ToStr(colorHex)] &&
      r.value == ColorsOf(store.favorites, id)
    ensures r == Err(COLOR_ALREADY_EXISTS) ==>
      exists u :: u in old(store.users) && FavoriteRow(u.accountId, ToStr(colorHex)) in old(store.favorites)
    ensures var found := FirstWhere(old(store.users), UserService.IdIs(userId));
      Truthy(userId) && Truthy(colorHex) && IsHexColor(ToStr(colorHex)) && found.Some? ==>
        (dbFault ==> r == Err(UPDATE_FAILED)) &&
        (!dbFault && FavoriteRow(old(store.users)[found.value].accountId, ToStr(colorHex)) in old(store.favorites) ==>
          r == Err(COLOR_ALREADY_EXISTS)) &&
        (r.Ok? <==> !dbFault && FavoriteRow(old(store.users)[found.value].accountId, ToStr(colorHex)) !in old(store.favorites))
  {
    if !Truthy(userId) || !Truthy(colorHex) {
      return Err(MISSING_REQUIRED_FIELDS);
    }
    var hex := ToStr(colorHex);
    if !IsHexColor(hex) {
      return Err(INVALID_HEX_COLOR);
    }
    var found := FirstWhere(store.users, UserService.IdIs(userId));
    if found.None? {
      return Err(USER_NOT_FOUND);
    }
    if dbFault {
      return Err(UPDATE_FAILED);
    }
    var id := store.users[found.value].accountId;
    if FavoriteRow(id, hex) in store.favorites {
      return Err(COLOR_ALREADY_EXISTS);
    }
    ghost var before := store.favorites;
    store.CreateFavorite(FavoriteRow(id, hex));
    ColorsOfAppend(before, [FavoriteRow(id, hex)], id);
    r := Ok(ColorsOf(store.favorites, id));
  }

  /**
   * `removeFavoriteColor(userId, colorHex)`: at most one row is destroyed, and a colour
   * that is not there is not an error.
   */
  method RemoveFavoriteColor(store: Store, userId: Value, colorHex: Value, dbFault: bool) returns (r: Result<seq<string>>)
    requires store.Valid()
    modifies store
    ensures store.Valid()
    ensures store.users == old(store.users) && store.seasons == old(store.seasons)
    ensures !Truthy(userId) || !Truthy(colorHex) ==> r == Err(MISSING_REQUIRED_FIELDS)
    ensures Truthy(userId) && Truthy(colorHex) && FirstWhere(old(store.users), UserService.IdIs(userId)).None? ==>
      r == Err(USER_NOT_FOUND)
    ensures r.Err? ==> store.favorites == old(store.favorites)
    ensures r.Ok? ==>
      var id := old(store.users)[FirstWhere(old(store.users), UserService.IdIs(userId)).value].accountId;
      store.favorites == Removed(old(store.favorites), FavoriteRow(id, ToStr(colorHex))) &&
      r.value == ColorsOf(store.favorites, id) &&
      (FavoriteRow(id, ToStr(colorHex)) !in old(store.favorites) ==>
        store.favorites == old(store.favorites) && r.value == ColorsOf(old(store.favorites), id))
    ensures Truthy(userId) && Truthy(colorHex) && FirstWhere(old(store.users), UserService.IdIs(userId)).Some? ==>
      (r.Ok? <==> !dbFault) && (dbFault ==> r == Err(UPDATE_FAILED))
  {
    if !Truthy(userId) || !Truthy(colorHex) {
      return Err(MISSING_REQUIRED_FIELDS);
    }
    var found := FirstWhere(store.users, UserService.IdIs(userId));
    if found.None? {
      return Err(USER_NOT_FOUND);
    }
    if dbFault {
      return Err(UPDATE_FAILED);
    }
    var id := store.users[found.value].accountId;
    var row := FavoriteRow(id, ToStr(colorHex));
    var record := FirstWhere(store.favorites, RowIs(row));
    if record.Some? {
      store.DestroyFavorite(record.value);
    }
    r := Ok(ColorsOf(store.favorites, id));
  }

  /** `getFavoriteColors(userId)`: the user's colours in table order. */
  function GetFavoriteColors(store: Store, userId: Value): (r: Result<seq<string>>)
    reads store
    ensures r.Err? <==> FirstWhere(store.users, UserService.IdIs(userId)).None?
    ensures r.Err? ==> r.error == USER_NOT_FOUND
    ensures r.Ok? ==> forall hex :: hex in r.value <==>
      FavoriteRow(store.users[FirstWhere(store.users, UserService.IdIs(userId)).value].accountId, hex) in store.favorites
  {
    match FirstWhere(store.users, UserService.IdIs(userId))
    case None => Err(USER_NOT_FOUND)
    case Some(i) =>
      var colors := ColorsOf(store.favorites, store.users[i].accountId);
      assert forall hex :: hex in colors <==> FavoriteRow(store.users[i].accountId, hex) in store.favorites by {
        forall hex {
          ColorsOfIff(store.favorites, store.users[i].accountId, hex);
        }
      }
      Ok(colors)
  }
}
