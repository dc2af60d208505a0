/** The handlers of POST /api/auth/login, POST /api/auth/logout and
    GET /api/auth/user (server/routes.ts) over the session store: login signs
    a session in, logout destroys it, and the user route reads through the
    requireAuth guard. */
module Routes {
  import opened Schema
  import opened Storage
  import opened Auth

  /** A user as GET /api/auth/user sends it: every column but the password. */
  datatype PublicUser = PublicUser(
    id: string,
    robloxUserId: Option<string>,
    username: string,
    displayName: string,
    profileImageUrl: Option<string>,
    level: Option<int>,
    xp: Option<int>,
    rank: Option<string>,
    title: Option<string>,
    gamesPlayed: Option<int>,
    hoursPlayed: Option<int>,
    friendsCount: Option<int>,
    achievements: Option<int>,
    createdAt: Option<Timestamp>,
    updatedAt: Option<Timestamp>)

  /** The user a public view and a password make up. */
  function WithPassword(v: PublicUser, password: string): User
  {
    User(v.id, v.robloxUserId, v.username, v.displayName, password, v.profileImageUrl,
         v.level, v.xp, v.rank, v.title, v.gamesPlayed, v.hoursPlayed, v.friendsCount,
         v.achievements, v.createdAt, v.updatedAt)
  }

  /** `const { password, ...userWithoutPassword } = user`: putting the
      password back gives the user again, so only the password is removed. */
  function StripPassword(u: User): (v: PublicUser)
    ensures WithPassword(v, u.password) == u
  {
    PublicUser(u.id, u.robloxUserId, u.username, u.displayName, u.profileImageUrl,
               u.level, u.xp, u.rank, u.title, u.gamesPlayed, u.hoursPlayed, u.friendsCount,
               u.achievements, u.createdAt, u.updatedAt)
  }

  /** The stripped view does not depend on the password at all. */
  lemma StripPasswordHidesPassword(u: User, password: string)
    ensures StripPassword(u.(password := password)) == StripPassword(u)
    ensures StripPassword(u) == StripPassword(WithPassword(StripPassword(u), password))
  {
  }

  /** A JSON response body. */
  datatype Body =
    | Message(message: string)
    | LoginSucceeded(message: string, user: User)
    | Profile(profile: PublicUser)
    | ValidationFailed(issues: seq<Issue>)

  datatype Response = Response(status: int, body: Body)

  /** What a failing storage call throws: an Error with a message, or some
      other value. */
  datatype Thrown = ErrorThrown(message: string) | ValueThrown

  /** The message the login handler's catch block answers with. */
  function CaughtMessage(t: Thrown): string
  {
    match t
    case ErrorThrown(m) => m
    case ValueThrown => "Invalid credentials format"
  }

  /** Some stored user has exactly these credentials. */
  predicate HasCredentials(users: seq<User>, c: LoginCredentials)
  {
    exists u :: u in users && u.username == c.username && u.password == c.password
  }

  /** The server-side session store: session id to session data. A request
      whose cookie names no stored session gets a fresh, empty session under
      the given id, and an empty session is never saved. */
  class SessionStore {
    var sessions: map<string, SessionData>

    constructor ()
      ensures sessions == map[]
    {
      sessions := map[];
    }

    /** req.session for a request carrying session id `sid`. */
    function Session(sid: string): SessionData
      reads this
    {
      if sid in sessions then sessions[sid] else SessionData(None)
    }

    /** POST /api/auth/login. `thrown` is what the storage call raises, if
        anything. */
    method Login(sid: string, body: Json, db: DatabaseStorage, thrown: Option<Thrown>) returns (resp: Response)
      requires db.Valid()
      modifies this
      ensures match ParseLogin(body)
        case Invalid(issues) =>
          resp == Response(400, ValidationFailed(issues)) && sessions == old(sessions)
        case Valid(creds) =>
          if thrown.Some? then
            resp == Response(400, Message(CaughtMessage(thrown.value))) && sessions == old(sessions)
          else if !HasCredentials(db.users, creds) then
            resp == Response(401, Message("Invalid username or password")) && sessions == old(sessions)
          else
            exists u :: && u in db.users && u.username == creds.username && u.password == creds.password
                        && resp == Response(200, LoginSucceeded("Login successful", u))
                        && sessions == old(sessions)[sid := SessionData(Some(u.id))]
    {
      var parsed := ParseLogin(body);
      if parsed.Invalid? {
        resp := Response(400, ValidationFailed(parsed.issues));
        return;
      }
      var credentials := parsed.value;
      if thrown.Some? {
        resp := Response(400, Message(CaughtMessage(thrown.value)));
        return;
      }
      var user := LoginUser(db, credentials);
      AuthenticateIff(db.users, credentials);
      if user.None? {
        resp := Response(401, Message("Invalid username or password"));
        return;
      }
      sessions := sessions[sid := SessionData(Some(user.value.id))];
      resp := Response(200, LoginSucceeded("Login successful", user.value));
    }

    /** POST /api/auth/logout: destroy the session; `destroyFails` says the
        store could not delete it. */
    method Logout(sid: string, destroyFails: bool) returns (resp: Response)
      modifies this
      ensures destroyFails ==> resp == Response(500, Message("Could not log out")) && sessions == old(sessions)
      ensures !destroyFails ==> resp == Response(200, Message("Logout successful"))
                                && sessions == old(sessions) - {sid}
      ensures !destroyFails ==> !SignedIn(Some(Session(sid)))
    {
      if destroyFails {
        resp := Response(500, Message("Could not log out"));
      } else {
        sessions := sessions - {sid};
        resp := Response(200, Message("Logout successful"));
      }
    }

    /** GET /api/auth/user behind requireAuth; `fails` says the storage call
        throws. Changes nothing. */
    method CurrentUser(sid: string, db: DatabaseStorage, fails: bool) returns (resp: Response)
      requires db.Valid()
      ensures !SignedIn(Some(Session(sid))) <==> resp == Response(401, Message("Unauthorized"))
      ensures SignedIn(Some(Session(sid))) && fails ==> resp == Response(500, Message("Failed to fetch user"))
      ensures SignedIn(Some(Session(sid))) && !fails ==>
                var id := Session(sid).userId.value;
                && (id !in UserIds(db.users) ==> resp == Response(404, Message("User not found")))
                && (forall u :: u in db.users && u.id == id ==> resp == Response(200, Profile(StripPassword(u))))
    {
      var guard := RequireAuth(Some(Session(sid)));
      if guard.Deny? {
        resp := Response(guard.status, Message(guard.message));
        return;
      }
      if fails {
        resp := Response(500, Message("Failed to fetch user"));
        return;
      }
      var userId := Session(sid).userId.value;
      var user := db.GetUser(userId);
      if user.None? {
        resp := Response(404, Message("User not found"));
        return;
      }
      forall u | u in db.users && u.id == userId ensures user.value == u {
        FindUserByIdExact(db.users, u);
      }
      resp := Response(200, Profile(StripPassword(user.value)));
    }
  }

  /** The body a sign-in form posts. */
  function LoginBody(username: string, password: string): Json
  {
    JObject(map["username" := JString(username), "password" := JString(password)])
  }

  /** A whole visit: sign in with a stored user's credentials, fetch the
      profile, sign out, fetch again. */
  method SignInAndOut(store: SessionStore, db: DatabaseStorage, sid: string, u: User)
    returns (login: Response, profile: Response, logout: Response, after: Response)
    requires db.Valid() && u in db.users && u.id != ""
    requires |u.username| >= UsernameMin && |u.password| >= PasswordMin
    modifies store
    ensures login == Response(200, LoginSucceeded("Login successful", u))
    ensures profile == Response(200, Profile(StripPassword(u)))
    ensures logout == Response(200, Message("Logout successful"))
    ensures after == Response(401, Message("Unauthorized"))
    ensures sid !in store.sessions
  {
    login := store.Login(sid, LoginBody(u.username, u.password), db, None);
    assert ParseLogin(LoginBody(u.username, u.password)).Valid?;
    FindUserByUsernameExact(db.users, u);
    assert store.Session(sid) == SessionData(Some(u.id));
    profile := store.CurrentUser(sid, db, false);
    logout := store.Logout(sid, false);
    after := store.CurrentUser(sid, db, false);
  }

  /** An unknown username and a known username with a wrong password get the
      same answer, and neither signs the session in. */
  method FailedLoginsLookAlike(store: SessionStore, db: DatabaseStorage, sid: string,
                               unknown: string, known: User, wrong: string, password: string)
    returns (first: Response, second: Response)
    requires db.Valid() && known in db.users && known.password != wrong
    requires unknown !in Usernames(db.users)
    requires |unknown| >= UsernameMin && |known.username| >= UsernameMin
    requires |password| >= PasswordMin && |wrong| >= PasswordMin
    modifies store
    ensures first == second == Response(401, Message("Invalid username or password"))
    ensures store.sessions == old(store.sessions)
  {
    first := store.Login(sid, LoginBody(unknown, password), db, None);
    assert ParseLogin(LoginBody(unknown, password)).Valid?;
    AuthenticateIff(db.users, LoginCredentials(unknown, password));
    second := store.Login(sid, LoginBody(known.username, wrong), db, None);
    assert ParseLogin(LoginBody(known.username, wrong)).Valid?;
    FindUserByUsernameExact(db.users, known);
    AuthenticateIff(db.users, LoginCredentials(known.username, wrong));
  }
}
