# Gaming-community accounts: data access, sessions and auth routes

A Dafny model of the server side of a small gaming-community site: the
users / games / user_game_sessions tables and their constraints, the
data-access layer `DatabaseStorage` that queries and updates them, the
`requireAuth` guard and session configuration, and the three live auth
routes (login, logout, current user) as a state machine over a session store.

- `schema.dfy` (module `Schema`): row types, insert payloads with column
  defaults, the `insertUserSchema` projection, the table constraints
  (primary keys, UNIQUE `username` and `roblox_user_id`, foreign keys of
  sessions) and the `loginSchema` validator over a JSON body.
- `storage.dfy` (module `Storage`): the read queries as functions over the
  rows (lookup by id and by username, plaintext credential check, the
  recent-games pipeline WHERE / ORDER BY last_played DESC / LIMIT 10 /
  LEFT JOIN / filter), and class `DatabaseStorage` holding the three tables,
  whose insert and update methods keep the constraints (`Valid()`).
- `auth.dfy` (module `Auth`): `getSession`'s options from the environment,
  `requireAuth`, `loginUser`.
- `routes.dfy` (module `Routes`): class `SessionStore` (session id to session
  data) with the handlers of POST /api/auth/login, POST /api/auth/logout and
  GET /api/auth/user, password stripping, and two end-to-end client methods.

Tables are sequences of rows in insertion order. Generated ids
(`gen_random_uuid()`) and the current time (`defaultNow()`, `new Date()`) are
parameters of the operations. A failure of the database or of the session
store is a parameter of the handler that would see it (`thrown`, `fails`,
`destroyFails`).

The model follows the code, including these behaviours:

- A successful login answers with the stored user record as storage returns
  it, password included; only GET /api/auth/user strips the password.
- Every exception inside the login handler, a database error included, is
  answered with 400 and the error's message, not with a 5xx status.
- Logout is not behind `requireAuth`; logging out without a session answers
  200 "Logout successful".
- The recent-games order admits ties, and sessions whose `last_played` is
  NULL come first (Postgres sorts NULLs first under DESC).
- Login writes the user id into the request's existing session; no new
  session id is issued.

## Model

| member | source | states |
|---|---|---|
| `Schema.NewUserInsert` | shared/schema.ts:64-70 | an insertUserSchema payload carries exactly robloxUserId, username, displayName, password, profileImageUrl: picking those columns back gives the payload, and every other column is left to its default |
| `Schema.NewUserDefaults` | shared/schema.ts:26-43 | a user created from such a payload gets the generated id, level 1, xp 0, rank "Bronze I", title "New Player", zero games/hours/friends/achievements, created and updated now, and NULL roblox id / image unless given |
| `Schema.SessionDefaults` | shared/schema.ts:55-62 | a session inserted without playtime or last-played records 0 minutes and last-played now |
| `Schema.StringFieldIssues` | shared/schema.ts:73-74 | one field of the login object yields no issue exactly when it is a string of at least the minimum length, and at most one issue otherwise |
| `Schema.ParseLogin` | shared/schema.ts:72-75 | loginSchema accepts a body iff it is an object whose username is a string of at least 3 characters and whose password a string of at least 6; then it returns exactly those two strings, otherwise one or two issues |
| `Schema.ShortFieldMessages` | shared/schema.ts:73-74 | a too-short username alone is reported as "Username must be at least 3 characters" at path username, a too-short password alone as "Password must be at least 6 characters" |
| `Storage.FindUserById` | server/storage.ts:36-39 | getUser returns a stored row with that id, and undefined exactly when no row has that id |
| `Storage.FindUserByIdExact` | server/storage.ts:36-39 | with id the primary key, getUser returns the one row with that id |
| `Storage.FindUserByUsername` | server/storage.ts:41-44 | getUserByUsername returns a stored row with that username, and undefined exactly when no row has it |
| `Storage.FindUserByUsernameExact` | server/storage.ts:41-44 | with username UNIQUE, getUserByUsername returns the one row with that username |
| `Storage.Authenticate` | server/storage.ts:51-57 | a returned user is stored and has exactly the supplied username and password |
| `Storage.AuthenticateIff` | server/storage.ts:51-57 | on a constrained users table authentication succeeds iff some stored user has that username and that exact password; an unknown username gives null like a wrong password |
| `Storage.FindGameById` | server/storage.ts:82 | the join partner of a session is a stored game with the referenced id, and none exactly when no game has that id |
| `Storage.WhereUser` | server/storage.ts:83 | the filter keeps every session of the user, as many times as it is stored, and nothing else |
| `Storage.SortByLastPlayed` | server/storage.ts:84 | ORDER BY last_played DESC yields a permutation of its input, non-increasing with NULLs first |
| `Storage.DropDangling` | server/storage.ts:87 | every returned entry comes from a row whose game was found and every such row is returned; it drops something iff some row has no game; a sorted input stays sorted |
| `Storage.DropDanglingCounts` | server/storage.ts:87 | each row whose game was found is kept exactly as many times as it occurs, and nothing else is kept |
| `Storage.RecentSessions` | server/storage.ts:70-88 | getUserGameSessions returns at most 10 entries, each a stored session of that user with a stored game whose id is the session's game id, in non-increasing last-played order |
| `Storage.NewestOfUserFacts` | server/storage.ts:83-85 | the rows taken by the limit are at most 10 sessions of the user from the table, in order |
| `Storage.LeftJoinFacts` | server/storage.ts:82 | every session gets its own row at its own position, the game is attached exactly when a game with the referenced id exists and is that game, and a sorted input stays sorted |
| `Storage.RecentSessionsKeepNewer` | server/storage.ts:83-87 | a session of the user strictly newer than a returned entry was among the ten taken, and is returned itself when its game exists: only the limit and missing games keep sessions out |
| `Storage.NewestHeadsRanking` | server/storage.ts:84-85 | a session strictly newer than all of the user's others is the first row taken |
| `Storage.DanglingNewestShortensResult` | server/storage.ts:85-87 | when the user's newest session references a missing game, fewer than 10 entries come back however many valid sessions exist, because the filter runs after the limit |
| `Storage.InsertedNewestComesFirst` | server/storage.ts:70-93 | after inserting a session newer than the user's others whose game exists, it is the first recent-games entry |
| `Storage.TakenWithGameReturned` | server/storage.ts:82-87 | every one of the ten taken sessions whose game exists is returned with that game, so the filter removes only rows with a missing game |
| `Storage.LimitKeepsNewest` | server/storage.ts:84-85 | a session of the user left out by the limit means exactly ten were taken, each played no earlier than it |
| `Storage.ConstrainedSessionsNoneDropped` | server/storage.ts:82-87 | under the game_id foreign key nothing is dropped: the user gets min(10, number of their sessions) entries |
| `Storage.ApplyStats` | server/storage.ts:95-103 | the update writes updatedAt = now and each counter only when supplied; every other column is unchanged |
| `Storage.UpdateRows` | server/storage.ts:96-102 | the row with that id is updated and every other row is unchanged |
| `Storage.UpdateRowsKeepsKeys` | server/storage.ts:95-103 | the update keeps the users constraints and the set of ids, and is a no-op when no row has that id |
| `Storage.AppendUserKeepsConstraints` | shared/schema.ts:27-29 | adding a row whose id, username and roblox id are new keeps ids, usernames and non-null roblox ids unique |
| `Storage.AppendGameKeepsConstraints` | shared/schema.ts:47 | adding a game with a new id keeps game ids unique |
| `Storage.AppendSessionKeepsConstraints` | shared/schema.ts:56-58 | adding a session with a new id that references an existing user and game keeps the sessions constraints |
| `Storage.DatabaseStorage.constructor` | server/storage.ts:106 | one starting state: empty tables, which satisfy the constraints (every method and lemma takes any state satisfying them) |
| `Storage.DatabaseStorage.CreateUser` | server/storage.ts:46-49 | the insert succeeds iff the row's integers fit and its id, username and roblox id are new; then the returned row is appended and nothing else changes; otherwise nothing changes and the error names a violated constraint |
| `Storage.DatabaseStorage.CreateGame` | server/storage.ts:64-67 | the insert succeeds iff the id is new; the returned game is appended to the catalogue and nothing else changes |
| `Storage.DatabaseStorage.CreateUserGameSession` | server/storage.ts:90-93 | the insert succeeds iff playtime fits, the id is new and the user and game exist; the returned session is appended and nothing else changes |
| `Storage.DatabaseStorage.UpdateUserStats` | server/storage.ts:95-103 | a supplied counter outside the integer range fails with no change; otherwise only the matching user's supplied counters and updatedAt change, and games and sessions are unchanged |
| `Auth.Or` | server/auth.ts:11 | `a || b` on optional strings: the first unless undefined or empty, else the second |
| `Auth.GetSession` | server/auth.ts:8-30 | the same number 604,800,000 is passed as the store ttl and as the cookie maxAge (one week in milliseconds for the cookie); the cookie is httpOnly and not secure; sessions are neither resaved nor saved uninitialised; the secret is never empty and is SESSION_SECRET when that is set and non-empty |
| `Auth.RequireAuth` | server/auth.ts:33-38 | the guard calls next iff a session exists with a non-empty userId, and otherwise answers 401 "Unauthorized" |
| `Auth.LoginUser` | server/auth.ts:41-43 | loginUser returns exactly what authenticateUser returns for the same credentials |
| `Routes.StripPassword` | server/routes.ts:53-55 | the user sent by GET /api/auth/user is the stored user without its password: putting the password back gives the stored user |
| `Routes.StripPasswordHidesPassword` | server/routes.ts:53-55 | the stripped view is the same whatever the password |
| `Routes.SessionStore.constructor` | server/auth.ts:12-17 | one starting state: an empty session store (every handler takes any store) |
| `Routes.SessionStore.Login` | server/routes.ts:12-35 | malformed body: 400 with the issues; storage exception: 400 with its message; no user with those credentials: 401 "Invalid username or password"; the store is unchanged in all three; otherwise 200 "Login successful" with the stored user and the session now holds that user's id, every other session unchanged |
| `Routes.SessionStore.Logout` | server/routes.ts:37-44 | a failed destroy answers 500 "Could not log out" and keeps the store; otherwise 200 "Logout successful", the session is removed and no longer signed in, every other session unchanged |
| `Routes.SessionStore.CurrentUser` | server/routes.ts:46-60 | 401 iff not signed in; 500 when storage throws; 404 when the session's user id no longer exists; otherwise 200 with that user stripped of its password; changes nothing |
| `Routes.SignInAndOut` | server/routes.ts:12-60 | signing in with a stored user's credentials, fetching the profile, signing out and fetching again answers 200, 200 with the stripped user, 200, and 401 |
| `Routes.FailedLoginsLookAlike` | server/routes.ts:21-23 | an unknown username and a wrong password get the same 401 response and leave the session store unchanged |

## Left out

- Postgres, Drizzle and SQL text: tables are in-memory sequences, queries and
  statements are functions and methods over them; each request is one
  sequential step, with no async scheduling or concurrent requests.
- Row order of queries without ORDER BY, and the order of tied `last_played`
  values: the model keeps table order, which Postgres does not promise.
- When one insert violates several constraints, which one Postgres reports is
  not pinned down; the methods promise only that the reported one is violated.
- Database unavailability during inserts and updates (the methods model only
  constraint and range errors); in the handlers a failing storage call is a
  parameter.
- JavaScript numbers are modelled as integers: fractional values sent to an
  `integer` column are not modelled.
- String lengths are counted in characters; zod counts UTF-16 code units, so
  characters outside the Basic Multilingual Plane count once here and twice there.
- The text of a zod error message (a JSON rendering of the issues): the 400
  body carries the list of issues instead.
- The type checks `insertUserSchema` would apply when parsing: no live route
  parses with it, so only its choice of columns is modelled.
- The unit the session store gives its `ttl` option: the store reads it in
  seconds and takes a session's expiry from the cookie's maxAge, so only the
  cookie's one-week lifetime is meant; the model records the number passed, not
  the store's reading of it.
- Session expiry: the `sessions.expire` column, the store's TTL handling and
  expiry sweeping, cookie signing and the session touch; a stored session
  stays valid until logout.
- `GetUser`, `GetUserByUsername`, `AuthenticateUser`, `GetGames` and
  `GetUserGameSessions` of `DatabaseStorage` bind the query functions to the
  object's tables and carry no contract of their own; the rows above for
  `FindUserById`, `FindUserByUsername`, `Authenticate` and `RecentSessions`
  state them. `GetGames` returns the whole catalogue, which `CreateGame`
  extends.
- Logging with console.log / console.error.
- The commented-out routes GET /api/user/games and GET /api/games.
- Deleting rows: no operation deletes, so cascade behaviour does not arise.
- The React pages and server/db.ts (connection pool and environment checks)
  are not part of this model.
