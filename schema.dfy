/** Rows, insert payloads, table constraints and the login validator of the
    users / games / user_game_sessions tables (shared/schema.ts). */
module Schema {

  datatype Option<T> = None | Some(value: T)

  /** A column in an INSERT: left out (the column default applies) or given,
      where the given value may itself be NULL for a nullable column. */
  datatype Insert<T> = Default | Given(value: T)

  function OrDefault<T>(f: Insert<T>, default: T): T
  {
    match f
    case Default => default
    case Given(v) => v
  }

  /** A timestamp, in milliseconds since the epoch. */
  type Timestamp = int

  /** Range of a Postgres `integer` column. */
  const Int4Min: int := -0x8000_0000
  const Int4Max: int := 0x7FFF_FFFF

  predicate FitsInt4(n: Option<int>)
  {
    n.None? || Int4Min <= n.value <= Int4Max
  }

  /* ------------------------------------------------------------------ rows */

  datatype User = User(
    id: string,
    robloxUserId: Option<string>,
    username: string,
    displayName: string,
    password: string,
    profileImageUrl: Option<string>,
    level: Option<int>,
    xp: Option<int>,
    rank: Option<string>,
    title: Option<string>,
    gamesPlayed: Option<int>,
    hoursPlayed: Option<int>,
    friendsCount: Option<int>,
    achievements: Option<int>,
    createdAt: Option<Timestamp>,
    updatedAt: Option<Timestamp>)

  datatype Game = Game(
    id: string,
    name: string,
    genre: string,
    thumbnail: Option<string>,
    createdAt: Option<Timestamp>)

  /** A row of user_game_sessions; `playtime` is in minutes. */
  datatype UserGameSession = UserGameSession(
    id: string,
    userId: string,
    gameId: string,
    playtime: Option<int>,
    lastPlayed: Option<Timestamp>,
    createdAt: Option<Timestamp>)

  /* ------------------------------------------------------- insert payloads */

  /** What an INSERT into users may carry: the NOT NULL columns without a
      default are required, every other column may be left out. */
  datatype InsertUser = InsertUser(
    id: Insert<string>,
    robloxUserId: Insert<Option<string>>,
    username: string,
    displayName: string,
    password: string,
    profileImageUrl: Insert<Option<string>>,
    level: Insert<Option<int>>,
    xp: Insert<Option<int>>,
    rank: Insert<Option<string>>,
    title: Insert<Option<string>>,
    gamesPlayed: Insert<Option<int>>,
    hoursPlayed: Insert<Option<int>>,
    friendsCount: Insert<Option<int>>,
    achievements: Insert<Option<int>>,
    createdAt: Insert<Option<Timestamp>>,
    updatedAt: Insert<Option<Timestamp>>)

  datatype InsertGame = InsertGame(
    id: Insert<string>,
    name: string,
    genre: string,
    thumbnail: Insert<Option<string>>,
    createdAt: Insert<Option<Timestamp>>)

  datatype InsertUserGameSession = InsertUserGameSession(
    id: Insert<string>,
    userId: string,
    gameId: string,
    playtime: Insert<Option<int>>,
    lastPlayed: Insert<Option<Timestamp>>,
    createdAt: Insert<Option<Timestamp>>)

  /** The row the database stores for an insert: every given column as given,
      every omitted one from its default (`freshId` stands for
      gen_random_uuid(), `now` for defaultNow()). */
  function UserRow(ins: InsertUser, freshId: string, now: Timestamp): User
  {
    User(
      id := OrDefault(ins.id, freshId),
      robloxUserId := OrDefault(ins.robloxUserId, None),
      username := ins.username,
      displayName := ins.displayName,
      password := ins.password,
      profileImageUrl := OrDefault(ins.profileImageUrl, None),
      level := OrDefault(ins.level, Some(1)),
      xp := OrDefault(ins.xp, Some(0)),
      rank := OrDefault(ins.rank, Some("Bronze I")),
      title := OrDefault(ins.title, Some("New Player")),
      gamesPlayed := OrDefault(ins.gamesPlayed, Some(0)),
      hoursPlayed := OrDefault(ins.hoursPlayed, Some(0)),
      friendsCount := OrDefault(ins.friendsCount, Some(0)),
      achievements := OrDefault(ins.achievements, Some(0)),
      createdAt := OrDefault(ins.createdAt, Some(now)),
      updatedAt := OrDefault(ins.updatedAt, Some(now)))
  }

  function GameRow(ins: InsertGame, freshId: string, now: Timestamp): Game
  {
    Game(OrDefault(ins.id, freshId), ins.name, ins.genre,
         OrDefault(ins.thumbnail, None), OrDefault(ins.createdAt, Some(now)))
  }

  function SessionRow(ins: InsertUserGameSession, freshId: string, now: Timestamp): UserGameSession
  {
    UserGameSession(OrDefault(ins.id, freshId), ins.userId, ins.gameId,
                    OrDefault(ins.playtime, Some(0)),
                    OrDefault(ins.lastPlayed, Some(now)),
                    OrDefault(ins.createdAt, Some(now)))
  }

  /** The integer columns of a row are within the range of `integer`. */
  predicate UserIntsFit(u: User)
  {
    FitsInt4(u.level) && FitsInt4(u.xp) && FitsInt4(u.gamesPlayed) && FitsInt4(u.hoursPlayed)
    && FitsInt4(u.friendsCount) && FitsInt4(u.achievements)
  }

  /* ------------------------------------------------------- insertUserSchema */

  /** The payload insertUserSchema admits: exactly the five picked columns. */
  datatype NewUser = NewUser(
    robloxUserId: Insert<Option<string>>,
    username: string,
    displayName: string,
    password: string,
    profileImageUrl: Insert<Option<string>>)

  /** Keep only the picked columns of an insert. */
  function PickNewUser(ins: InsertUser): NewUser
  {
    NewUser(ins.robloxUserId, ins.username, ins.displayName, ins.password, ins.profileImageUrl)
  }

  /** The insert a NewUser payload stands for: the five columns it carries and
      nothing else, so every other column takes its default. */
  function NewUserInsert(p: NewUser): (ins: InsertUser)
    ensures PickNewUser(ins) == p
    ensures ins.id.Default? && ins.level.Default? && ins.xp.Default? && ins.rank.Default?
    ensures ins.title.Default? && ins.gamesPlayed.Default? && ins.hoursPlayed.Default?
    ensures ins.friendsCount.Default? && ins.achievements.Default?
    ensures ins.createdAt.Default? && ins.updatedAt.Default?
  {
    InsertUser(Default, p.robloxUserId, p.username, p.displayName, p.password, p.profileImageUrl,
               Default, Default, Default, Default, Default, Default, Default, Default, Default, Default)
  }

  /** A user created from an insertUserSchema payload carries the payload's
      columns and the schema defaults for all the others. */
  lemma NewUserDefaults(p: NewUser, freshId: string, now: Timestamp)
    ensures var u := UserRow(NewUserInsert(p), freshId, now);
      && u.id == freshId
      && u.username == p.username && u.displayName == p.displayName && u.password == p.password
      && u.robloxUserId == OrDefault(p.robloxUserId, None)
      && u.profileImageUrl == OrDefault(p.profileImageUrl, None)
      && u.level == Some(1) && u.xp == Some(0)
      && u.rank == Some("Bronze I") && u.title == Some("New Player")
      && u.gamesPlayed == Some(0) && u.hoursPlayed == Some(0)
      && u.friendsCount == Some(0) && u.achievements == Some(0)
      && u.createdAt == Some(now) && u.updatedAt == Some(now)
      && UserIntsFit(u)
  {
  }

  /** A session inserted without a playtime records 0 minutes, and one
      inserted without a last-played time counts as played now. */
  lemma SessionDefaults(ins: InsertUserGameSession, freshId: string, now: Timestamp)
    requires ins.playtime.Default? && ins.lastPlayed.Default?
    ensures var s := SessionRow(ins, freshId, now);
      s.playtime == Some(0) && s.lastPlayed == Some(now) && s.userId == ins.userId && s.gameId == ins.gameId
  {
  }

  /* ------------------------------------------------------------ constraints */

  function UserIds(users: seq<User>): set<string>
  {
    set u | u in users :: u.id
  }

  function Usernames(users: seq<User>): set<string>
  {
    set u | u in users :: u.username
  }

  /** The non-null roblox_user_id values (UNIQUE admits any number of NULLs). */
  function RobloxUserIds(users: seq<User>): set<string>
  {
    set u | u in users && u.robloxUserId.Some? :: u.robloxUserId.value
  }

  function GameIds(games: seq<Game>): set<string>
  {
    set g | g in games :: g.id
  }

  function SessionIds(sessions: seq<UserGameSession>): set<string>
  {
    set s | s in sessions :: s.id
  }

  /** users: id is the primary key, username is UNIQUE NOT NULL, and
      roblox_user_id is UNIQUE among non-null values. */
  predicate UsersConstrained(users: seq<User>)
  {
    forall i, j :: 0 <= i < j < |users| ==>
      && users[i].id != users[j].id
      && users[i].username != users[j].username
      && (users[i].robloxUserId.Some? && users[j].robloxUserId.Some? ==>
            users[i].robloxUserId != users[j].robloxUserId)
  }

  predicate GamesConstrained(games: seq<Game>)
  {
    forall i, j :: 0 <= i < j < |games| ==> games[i].id != games[j].id
  }

  /** user_game_sessions: id is the primary key, and user_id / game_id
      reference existing users and games. */
  predicate SessionsConstrained(sessions: seq<UserGameSession>, users: seq<User>, games: seq<Game>)
  {
    && (forall i, j :: 0 <= i < j < |sessions| ==> sessions[i].id != sessions[j].id)
    && (forall s :: s in sessions ==> s.userId in UserIds(users) && s.gameId in GameIds(games))
  }

  /* ------------------------------------------------------------ loginSchema */

  /** A JSON request body (numbers are kept integral). */
  datatype Json =
    | JNull
    | JBool(b: bool)
    | JNumber(n: int)
    | JString(s: string)
    | JArray(items: seq<Json>)
    | JObject(fields: map<string, Json>)

  /** One validation issue: the path of the offending field and its message. */
  datatype Issue = Issue(path: seq<string>, message: string)

  datatype LoginCredentials = LoginCredentials(username: string, password: string)

  datatype Parsed<T> = Valid(value: T) | Invalid(issues: seq<Issue>)

  const UsernameMin: nat := 3
  const PasswordMin: nat := 6
  const UsernameTooShort := "Username must be at least 3 characters"
  const PasswordTooShort := "Password must be at least 6 characters"

  /** The type name a validation message reports for a received value. */
  function TypeName(v: Json): string
  {
    match v
    case JNull => "null"
    case JBool(_) => "boolean"
    case JNumber(_) => "number"
    case JString(_) => "string"
    case JArray(_) => "array"
    case JObject(_) => "object"
  }

  /** The issues of one `z.string().min(min, tooShort)` field of an object. */
  function StringFieldIssues(fields: map<string, Json>, key: string, min: nat, tooShort: string): (r: seq<Issue>)
    ensures r == [] <==> key in fields && fields[key].JString? && |fields[key].s| >= min
    ensures |r| <= 1
  {
    if key !in fields then [Issue([key], "Required")]
    else match fields[key]
      case JString(s) => if |s| < min then [Issue([key], tooShort)] else []
      case other => [Issue([key], "Expected string, received " + TypeName(other))]
  }

  /** What loginSchema accepts: an object whose username is a string of at
      least 3 characters and whose password is a string of at least 6. */
  predicate AcceptableLogin(body: Json)
  {
    && body.JObject?
    && "username" in body.fields && body.fields["username"].JString?
    && "password" in body.fields && body.fields["password"].JString?
    && |body.fields["username"].s| >= UsernameMin
    && |body.fields["password"].s| >= PasswordMin
  }

  /** loginSchema.parse: the credentials with unknown keys stripped, or every
      issue found, field by field in the schema's order. */
  function ParseLogin(body: Json): (r: Parsed<LoginCredentials>)
    ensures r.Valid? <==> AcceptableLogin(body)
    ensures r.Valid? ==> r.value == LoginCredentials(body.fields["username"].s, body.fields["password"].s)
    ensures r.Invalid? ==> 1 <= |r.issues| <= 2
  {
    if !body.JObject? then
      Invalid([Issue([], "Expected object, received " + TypeName(body))])
    else
      var issues := StringFieldIssues(body.fields, "username", UsernameMin, UsernameTooShort)
                  + StringFieldIssues(body.fields, "password", PasswordMin, PasswordTooShort);
      if issues == [] then
        Valid(LoginCredentials(body.fields["username"].s, body.fields["password"].s))
      else
        Invalid(issues)
  }

  /** A well-typed body whose only fault is a short username is rejected with
      exactly the username message, and likewise for the password. */
  lemma ShortFieldMessages(username: string, password: string, extra: map<string, Json>)
    requires "username" !in extra && "password" !in extra
    ensures |username| < UsernameMin && |password| >= PasswordMin ==>
      ParseLogin(JObject(extra["username" := JString(username)]["password" := JString(password)]))
        == Invalid([Issue(["username"], UsernameTooShort)])
    ensures |username| >= UsernameMin && |password| < PasswordMin ==>
      ParseLogin(JObject(extra["username" := JString(username)]["password" := JString(password)]))
        == Invalid([Issue(["password"], PasswordTooShort)])
  {
  }
}
