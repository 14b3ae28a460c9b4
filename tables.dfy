/**
 * The three database tables the business rules touch (`account`, `color_seasons`,
 * `favorite_colors`), held in memory. Rows keep table order; `findOne` returns the
 * first matching row and `findAll` the matching rows in order.
 */
module Tables {
  import opened Wrappers

  /** A row of `account`; timestamps are milliseconds since the epoch, `None` is SQL `NULL`. */
  datatype UserRow = UserRow(
    accountId: int,
    loginName: string,
    passwordHash: string,
    email: string,
    fullName: string,
    seasonId: Option<int>,
    analysisDate: Option<int>,
    recoveryHash: Option<string>,
    recoveryExpires: Option<int>)

  /** A row of `color_seasons`. */
  datatype SeasonRow = SeasonRow(seasonId: int, seasonName: string)

  /** A row of `favorite_colors`. */
  datatype FavoriteRow = FavoriteRow(userId: int, colorHex: string)

  /** The index of the first element satisfying `p`, as `findOne` without an order clause. */
  function FirstWhere<T>(s: seq<T>, p: T -> bool): (r: Option<nat>)
    ensures r.Some? ==> r.value < |s| && p(s[r.value])
  {
    if s == [] then None
    else if p(s[0]) then Some(0)
    else match FirstWhere(s[1..], p)
      case None => None
      case Some(k) => Some(k + 1)
  }

  /** `FirstWhere` finds the first match, and reports `None` only when nothing matches. */
  lemma {:induction false} FirstWhereIsFirst<T>(s: seq<T>, p: T -> bool)
    ensures FirstWhere(s, p).Some? ==> forall j :: 0 <= j < FirstWhere(s, p).value ==> !p(s[j])
    ensures FirstWhere(s, p).None? <==> forall j :: 0 <= j < |s| ==> !p(s[j])
  {
    if s != [] {
      FirstWhereIsFirst(s[1..], p);
      assert forall j :: 0 < j < |s| ==> s[j] == s[1..][j - 1];
    }
  }

  /** The colour codes of one user's favourites, in table order (`favorites.map(f => f.color_hex)`). */
  function ColorsOf(favorites: seq<FavoriteRow>, userId: int): (colors: seq<string>)
    ensures |colors| <= |favorites|
  {
    if favorites == [] then []
    else
      var rest := ColorsOf(favorites[1..], userId);
      if favorites[0].userId == userId then [favorites[0].colorHex] + rest else rest
  }

  /** A colour is in a user's list iff some row of that user holds it. */
  lemma {:induction false} ColorsOfIff(favorites: seq<FavoriteRow>, userId: int, hex: string)
    ensures hex in ColorsOf(favorites, userId) <==> FavoriteRow(userId, hex) in favorites
  {
    if favorites != [] {
      ColorsOfIff(favorites[1..], userId, hex);
      assert FavoriteRow(userId, hex) in favorites <==>
        favorites[0] == FavoriteRow(userId, hex) || FavoriteRow(userId, hex) in favorites[1..];
    }
  }

  /** Listing distributes over appending rows. */
  lemma {:induction false} ColorsOfAppend(a: seq<FavoriteRow>, b: seq<FavoriteRow>, userId: int)
    ensures ColorsOf(a + b, userId) == ColorsOf(a, userId) + ColorsOf(b, userId)
  {
    if a == [] {
      assert a + b == b;
    } else {
      assert (a + b)[1..] == a[1..] + b;
      ColorsOfAppend(a[1..], b, userId);
    }
  }

  /** Rows of other users do not show up in a user's list. */
  lemma ColorsOfOther(row: FavoriteRow, userId: int)
    requires row.userId != userId
    ensures ColorsOf([row], userId) == []
  {
  }

  /** A user row after a colour-season analysis was recorded at `now`. */
  function WithSeason(u: UserRow, seasonId: int, now: int): (v: UserRow)
    ensures v.accountId == u.accountId && v.loginName == u.loginName
  {
    u.(seasonId := Some(seasonId), analysisDate := Some(now))
  }

  predicate UniqueUsers(users: seq<UserRow>) {
    forall i, j :: 0 <= i < j < |users| ==>
      users[i].accountId != users[j].accountId && users[i].loginName != users[j].loginName
  }

  predicate UniqueSeasons(seasons: seq<SeasonRow>) {
    forall i, j :: 0 <= i < j < |seasons| ==>
      seasons[i].seasonId != seasons[j].seasonId && seasons[i].seasonName != seasons[j].seasonName
  }

  /** The database, updated in place by the operations of the business layer. */
  class Store {
    var users: seq<UserRow>
    var seasons: seq<SeasonRow>
    var favorites: seq<FavoriteRow>

    /** The primary keys and the `unique` columns hold. */
    predicate Valid()
      reads this
    {
      UniqueUsers(users) && UniqueSeasons(seasons)
    }

    constructor(users: seq<UserRow>, seasons: seq<SeasonRow>, favorites: seq<FavoriteRow>)
      requires UniqueUsers(users) && UniqueSeasons(seasons)
      ensures Valid()
      ensures this.users == users && this.seasons == seasons && this.favorites == favorites
    {
      this.users := users;
      this.seasons := seasons;
      this.favorites := favorites;
    }

    /** `user.update({...})`: one row changes, its keys stay. */
    method UpdateUser(i: nat, row: UserRow)
      requires Valid()
      requires i < |users|
      requires row.accountId == users[i].accountId && row.loginName == users[i].loginName
      modifies this
      ensures Valid()
      ensures users == old(users)[i := row]
      ensures seasons == old(seasons) && favorites == old(favorites)
    {
      users := users[i := row];
    }

    /** `User.update({ color_season_id, color_analysis_date }, { where })`: every row `matches` selects. */
    method SetSeasonWhere(matches: UserRow -> bool, seasonId: int, now: int)
      requires Valid()
      modifies this
      ensures Valid()
      ensures |users| == |old(users)|
      ensures forall i :: 0 <= i < |users| ==>
        users[i] == (if matches(old(users)[i]) then WithSeason(old(users)[i], seasonId, now) else old(users)[i])
      ensures seasons == old(seasons) && favorites == old(favorites)
    {
      users := seq(|users|, i requires 0 <= i < |users| reads this =>
        if matches(users[i]) then WithSeason(users[i], seasonId, now) else users[i]);
    }

    /** `User.create({...})`: the database refuses a taken key or login name. */
    method CreateUser(row: UserRow)
      requires Valid()
      requires forall u :: u in users ==> u.accountId != row.accountId && u.loginName != row.loginName
      modifies this
      ensures Valid()
      ensures users == old(users) + [row]
      ensures seasons == old(seasons) && favorites == old(favorites)
    {
      users := users + [row];
    }

    /** `FavoriteColor.create({...})`. */
    method CreateFavorite(row: FavoriteRow)
      requires Valid()
      modifies this
      ensures Valid()
      ensures favorites == old(favorites) + [row]
      ensures users == old(users) && seasons == old(seasons)
    {
      favorites := favorites + [row];
    }

    /** `record.destroy()` on the favourite at index `i`. */
    method DestroyFavorite(i: nat)
      requires Valid()
      requires i < |favorites|
      modifies this
      ensures Valid()
      ensures favorites == old(favorites)[..i] + old(favorites)[i + 1..]
      ensures users == old(users) && seasons == old(seasons)
    {
      favorites := favorites[..i] + favorites[i + 1..];
    }
  }
}
