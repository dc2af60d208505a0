/** Session configuration, the requireAuth guard and the login delegation
    (server/auth.ts). */
module Auth {
  import opened Schema
  import opened Storage

  /** The data a stored session carries: the signed-in user's id, if any. */
  datatype SessionData = SessionData(userId: Option<string>)

  /* ------------------------------------------------------------ getSession */

  /** The environment variables getSession reads. */
  datatype Environment = Environment(
    railwayDatabaseUrl: Option<string>,
    databaseUrl: Option<string>,
    sessionSecret: Option<string>)

  datatype StoreOptions = StoreOptions(
    conString: Option<string>,
    createTableIfMissing: bool,
    ttl: int,
    tableName: string)

  datatype CookieOptions = CookieOptions(httpOnly: bool, secure: bool, maxAge: int)

  datatype SessionOptions = SessionOptions(
    secret: string,
    store: StoreOptions,
    resave: bool,
    saveUninitialized: bool,
    cookie: CookieOptions)

  /** One week, in milliseconds. */
  const SessionTtl: int := 7 * 24 * 60 * 60 * 1000

  const DefaultSecret := "your-secret-key-here"

  /** JavaScript `a || b` on an optional string: `a` unless it is undefined
      or empty. */
  function Or(a: Option<string>, b: Option<string>): (r: Option<string>)
    ensures r == a || r == b
    ensures a.Some? && a.value != "" ==> r == a
    ensures (a.None? || a.value == "") ==> r == b
  {
    if a.Some? && a.value != "" then a else b
  }

  /** The session middleware's options. */
  function GetSession(env: Environment): (o: SessionOptions)
    ensures o.store.ttl == o.cookie.maxAge == 604_800_000
    ensures o.cookie.httpOnly && !o.cookie.secure
    ensures !o.saveUninitialized && !o.resave
    ensures o.store.tableName == "sessions" && o.store.createTableIfMissing
    ensures o.secret != ""
    ensures env.sessionSecret.Some? && env.sessionSecret.value != "" ==> o.secret == env.sessionSecret.value
    ensures o.store.conString == Or(env.railwayDatabaseUrl, env.databaseUrl)
  {
    var secret := Or(env.sessionSecret, Some(DefaultSecret));
    SessionOptions(
      secret := secret.value,
      store := StoreOptions(Or(env.railwayDatabaseUrl, env.databaseUrl), true, SessionTtl, "sessions"),
      resave := false,
      saveUninitialized := false,
      cookie := CookieOptions(httpOnly := true, secure := false, maxAge := SessionTtl))
  }

  /* ----------------------------------------------------------- requireAuth */

  /** What the guard does with a request: pass it on, or answer it. */
  datatype Guard = Next | Deny(status: int, message: string)

  /** `!req.session?.userId`: no session, no user id, or the empty id. */
  predicate SignedIn(session: Option<SessionData>)
  {
    session.Some? && session.value.userId.Some? && session.value.userId.value != ""
  }

  /** requireAuth: 401 "Unauthorized" without calling next, or next without
      writing a response. */
  function RequireAuth(session: Option<SessionData>): (g: Guard)
    ensures g == Next <==> SignedIn(session)
    ensures g != Next ==> g == Deny(401, "Unauthorized")
  {
    if session.None? || session.value.userId.None? || session.value.userId.value == "" then
      Deny(401, "Unauthorized")
    else
      Next
  }

  /* -------------------------------------------------------------- loginUser */

  /** loginUser: what the storage's authenticateUser returns. */
  function LoginUser(db: DatabaseStorage, credentials: LoginCredentials): (r: Option<User>)
    reads db
    ensures r == Authenticate(db.users, credentials)
    ensures r.Some? ==> r.value in db.users && r.value.username == credentials.username
                        && r.value.password == credentials.password
  {
    db.AuthenticateUser(credentials)
  }
}
