/** The data-access layer (server/storage.ts): read queries as functions over
    the rows of the users, games and user_game_sessions tables, and a
    DatabaseStorage object whose insert and update methods change them. */
module Storage {
  import opened Schema

  /** The named constraints an INSERT can violate. */
  datatype Constraint =
    | UsersPkey | UsersUsernameUnique | UsersRobloxUserIdUnique
    | GamesPkey
    | SessionsPkey | SessionsUserIdFkey | SessionsGameIdFkey

  /** The errors the database raises for a statement. */
  datatype StoreError =
    | UniqueViolation(constraint: Constraint)
    | ForeignKeyViolation(constraint: Constraint)
    | IntegerOutOfRange

  datatype Result<T> = Ok(value: T) | Err(error: StoreError)

  /** The optional counters updateUserStats may set. */
  datatype StatsUpdate = StatsUpdate(gamesPlayed: Option<int>, hoursPlayed: Option<int>)

  /** A row of the left join of user_game_sessions with games. */
  datatype JoinedRow = JoinedRow(session: UserGameSession, game: Option<Game>)

  /** A recent-games entry: a session together with the game it references. */
  datatype SessionWithGame = SessionWithGame(session: UserGameSession, game: Game)

  /** LIMIT of the recent-games query. */
  const RecentLimit: nat := 10

  /* ---------------------------------------------------------------- lookups */

  /** SELECT * FROM users WHERE id = $1, first row. */
  function FindUserById(users: seq<User>, id: string): (r: Option<User>)
    ensures r.Some? ==> r.value in users && r.value.id == id
    ensures r.None? <==> id !in UserIds(users)
  {
    if users == [] then None
    else if users[0].id == id then Some(users[0])
    else
      assert UserIds(users) == {users[0].id} + UserIds(users[1..]) by {
        assert users == [users[0]] + users[1..];
      }
      FindUserById(users[1..], id)
  }

  /** SELECT * FROM users WHERE username = $1, first row. */
  function FindUserByUsername(users: seq<User>, username: string): (r: Option<User>)
    ensures r.Some? ==> r.value in users && r.value.username == username
    ensures r.None? <==> username !in Usernames(users)
  {
    if users == [] then None
    else if users[0].username == username then Some(users[0])
    else
      assert Usernames(users) == {users[0].username} + Usernames(users[1..]) by {
        assert users == [users[0]] + users[1..];
      }
      FindUserByUsername(users[1..], username)
  }

  /** The game a session's game_id joins to, if any. */
  function FindGameById(games: seq<Game>, id: string): (r: Option<Game>)
    ensures r.Some? ==> r.value in games && r.value.id == id
    ensures r.None? <==> id !in GameIds(games)
  {
    if games == [] then None
    else if games[0].id == id then Some(games[0])
    else
      assert GameIds(games) == {games[0].id} + GameIds(games[1..]) by {
        assert games == [games[0]] + games[1..];
      }
      FindGameById(games[1..], id)
  }

  /** With id as primary key, the lookup by id returns THE row with that id. */
  lemma {:induction false} FindUserByIdExact(users: seq<User>, u: User)
    requires UsersConstrained(users) && u in users
    ensures FindUserById(users, u.id) == Some(u)
  {
    if users[0] != u {
      assert users[0].id != u.id by {
        var k :| 0 <= k < |users| && users[k] == u;
        assert 0 < k;
      }
      FindUserByIdExact(users[1..], u);
    }
  }

  /** With username UNIQUE, the lookup by username returns THE row with that username. */
  lemma {:induction false} FindUserByUsernameExact(users: seq<User>, u: User)
    requires UsersConstrained(users) && u in users
    ensures FindUserByUsername(users, u.username) == Some(u)
  {
    if users[0] != u {
      assert users[0].username != u.username by {
        var k :| 0 <= k < |users| && users[k] == u;
        assert 0 < k;
      }
      FindUserByUsernameExact(users[1..], u);
    }
  }

  /* --------------------------------------------------------- authenticateUser */

  /** authenticateUser: the user found by username, when its stored password
      equals the supplied one exactly; None otherwise. */
  function Authenticate(users: seq<User>, creds: LoginCredentials): (r: Option<User>)
    ensures r.Some? ==> r.value in users && r.value.username == creds.username
                        && r.value.password == creds.password
  {
    match FindUserByUsername(users, creds.username)
    case Some(u) => if u.password == creds.password then Some(u) else None
    case None => None
  }

  /** On a users table that keeps its constraints, authentication succeeds
      exactly when some stored user has that username and that password; an
      unknown username and a wrong password both give None. */
  lemma AuthenticateIff(users: seq<User>, creds: LoginCredentials)
    requires UsersConstrained(users)
    ensures Authenticate(users, creds).Some? <==>
              exists u :: u in users && u.username == creds.username && u.password == creds.password
    ensures creds.username !in Usernames(users) ==> Authenticate(users, creds) == None
  {
    if u :| u in users && u.username == creds.username && u.password == creds.password {
      FindUserByUsernameExact(users, u);
    }
  }

  /* ---------------------------------------------------- getUserGameSessions */

  /** `a` comes no later than `b` under ORDER BY last_played DESC, where
      Postgres places NULLs first. */
  predicate PlayedNoEarlier(a: Option<Timestamp>, b: Option<Timestamp>)
  {
    a.None? || (b.Some? && a.value >= b.value)
  }

  predicate SortedByLastPlayed(s: seq<UserGameSession>)
  {
    forall i, j :: 0 <= i < j < |s| ==> PlayedNoEarlier(s[i].lastPlayed, s[j].lastPlayed)
  }

  /** WHERE user_id = $1: the user's sessions, in table order. */
  function WhereUser(sessions: seq<UserGameSession>, userId: string): (r: seq<UserGameSession>)
    ensures forall s :: multiset(r)[s] == if s.userId == userId then multiset(sessions)[s] else 0
  {
    if sessions == [] then []
    else
      assert sessions == [sessions[0]] + sessions[1..];
      var rest := WhereUser(sessions[1..], userId);
      if sessions[0].userId == userId then [sessions[0]] + rest else rest
  }

  function InsertByLastPlayed(x: UserGameSession, s: seq<UserGameSession>): (r: seq<UserGameSession>)
    requires SortedByLastPlayed(s)
    ensures SortedByLastPlayed(r)
    ensures multiset(r) == multiset(s) + multiset{x}
  {
    if s == [] || PlayedNoEarlier(x.lastPlayed, s[0].lastPlayed) then [x] + s
    else
      var tail := InsertByLastPlayed(x, s[1..]);
      assert s == [s[0]] + s[1..];
      HeadPrecedesInsertion(x, s, tail);
      [s[0]] + tail
  }

  /** When `x` goes after the head of sorted `s`, the head precedes every
      element of the insertion into the rest. */
  lemma HeadPrecedesInsertion(x: UserGameSession, s: seq<UserGameSession>, tail: seq<UserGameSession>)
    requires SortedByLastPlayed(s) && s != [] && !PlayedNoEarlier(x.lastPlayed, s[0].lastPlayed)
    requires multiset(tail) == multiset(s[1..]) + multiset{x}
    ensures forall j :: 0 <= j < |tail| ==> PlayedNoEarlier(s[0].lastPlayed, tail[j].lastPlayed)
  {
    forall j | 0 <= j < |tail|
      ensures PlayedNoEarlier(s[0].lastPlayed, tail[j].lastPlayed)
    {
      assert tail[j] in multiset(tail);
      if tail[j] != x {
        assert tail[j] in multiset(s[1..]);
        var k :| 0 <= k < |s[1..]| && s[1..][k] == tail[j];
        assert s[k + 1] == tail[j];
      }
    }
  }

  /** ORDER BY last_played DESC: a sorted permutation (ties keep table order). */
  function SortByLastPlayed(s: seq<UserGameSession>): (r: seq<UserGameSession>)
    ensures SortedByLastPlayed(r)
    ensures multiset(r) == multiset(s)
  {
    if s == [] then []
    else
      assert s == [s[0]] + s[1..];
      InsertByLastPlayed(s[0], SortByLastPlayed(s[1..]))
  }

  /** The user's sessions by descending last_played, LIMIT 10. */
  function NewestOfUser(sessions: seq<UserGameSession>, userId: string): seq<UserGameSession>
  {
    var ranked := SortByLastPlayed(WhereUser(sessions, userId));
    if |ranked| <= RecentLimit then ranked else ranked[..RecentLimit]
  }

  /** LEFT JOIN games ON game_id = games.id (ids of games are unique, so each
      session meets at most one game). */
  function LeftJoinGames(sessions: seq<UserGameSession>, games: seq<Game>): seq<JoinedRow>
  {
    seq(|sessions|, i requires 0 <= i < |sessions| =>
      JoinedRow(sessions[i], FindGameById(games, sessions[i].gameId)))
  }

  predicate JoinedSorted(rows: seq<JoinedRow>)
  {
    forall i, j :: 0 <= i < j < |rows| ==>
      PlayedNoEarlier(rows[i].session.lastPlayed, rows[j].session.lastPlayed)
  }

  /** `results.filter(result => result.game !== null)`: the rows whose game
      was found; a sorted input stays sorted. */
  function DropDangling(rows: seq<JoinedRow>): (r: seq<SessionWithGame>)
    ensures |r| <= |rows|
    ensures forall e :: e in r ==> JoinedRow(e.session, Some(e.game)) in rows
    ensures forall row :: row in rows && row.game.Some? ==>
              SessionWithGame(row.session, row.game.value) in r
    ensures (forall row :: row in rows ==> row.game.Some?) ==> |r| == |rows|
    ensures (exists row :: row in rows && row.game.None?) ==> |r| < |rows|
    ensures JoinedSorted(rows) ==>
              forall i, j :: 0 <= i < j < |r| ==>
                PlayedNoEarlier(r[i].session.lastPlayed, r[j].session.lastPlayed)
  {
    if rows == [] then []
    else
      var rest := DropDangling(rows[1..]);
      assert forall row :: row in rows <==> row == rows[0] || row in rows[1..];
      if rows[0].game.Some? then [SessionWithGame(rows[0].session, rows[0].game.value)] + rest
      else rest
  }

  /** The filter keeps each row whose game was found exactly as many times as
      it occurs, and nothing else. */
  lemma {:induction false} DropDanglingCounts(rows: seq<JoinedRow>)
    ensures forall e :: multiset(DropDangling(rows))[e] == multiset(rows)[JoinedRow(e.session, Some(e.game))]
  {
    if rows != [] {
      DropDanglingCounts(rows[1..]);
      assert rows == [rows[0]] + rows[1..];
    }
  }

  /** getUserGameSessions: the user's ten most recently played sessions,
      joined with their games; those whose game is missing are dropped after
      the limit. */
  function RecentSessions(sessions: seq<UserGameSession>, games: seq<Game>, userId: string)
    : (r: seq<SessionWithGame>)
    ensures |r| <= RecentLimit
    ensures forall e :: e in r ==>
              && e.session in sessions && e.session.userId == userId
              && e.game in games && e.game.id == e.session.gameId
    ensures forall i, j :: 0 <= i < j < |r| ==>
              PlayedNoEarlier(r[i].session.lastPlayed, r[j].session.lastPlayed)
  {
    var newest := NewestOfUser(sessions, userId);
    var rows := LeftJoinGames(newest, games);
    NewestOfUserFacts(sessions, userId);
    LeftJoinFacts(newest, games);
    DropDangling(rows)
  }

  /** Each session gets its own joined row, in place, carrying the game whose
      id it references exactly when there is one; the join keeps the order. */
  lemma LeftJoinFacts(sessions: seq<UserGameSession>, games: seq<Game>)
    ensures |LeftJoinGames(sessions, games)| == |sessions|
    ensures forall i :: 0 <= i < |sessions| ==> LeftJoinGames(sessions, games)[i].session == sessions[i]
    ensures forall row :: row in LeftJoinGames(sessions, games) ==>
              (row.game.None? <==> row.session.gameId !in GameIds(games))
    ensures SortedByLastPlayed(sessions) ==> JoinedSorted(LeftJoinGames(sessions, games))
    ensures forall row :: row in LeftJoinGames(sessions, games) ==>
              && row.session in sessions
              && (row.game.Some? ==> row.game.value in games && row.game.value.id == row.session.gameId)
  {
    var rows := LeftJoinGames(sessions, games);
    forall row | row in rows
      ensures row.session in sessions
    {
      var k :| 0 <= k < |rows| && rows[k] == row;
      assert sessions[k] in sessions;
    }
  }

  /** The ten taken rows are sorted, belong to the user and come from the table. */
  lemma NewestOfUserFacts(sessions: seq<UserGameSession>, userId: string)
    ensures |NewestOfUser(sessions, userId)| <= RecentLimit
    ensures SortedByLastPlayed(NewestOfUser(sessions, userId))
    ensures forall s :: s in NewestOfUser(sessions, userId) ==> s in sessions && s.userId == userId
  {
    var where := WhereUser(sessions, userId);
    var ranked := SortByLastPlayed(where);
    var newest := NewestOfUser(sessions, userId);
    assert newest == ranked[..|newest|];
    forall s | s in newest ensures s in sessions && s.userId == userId {
      assert s in ranked;
      assert multiset(ranked)[s] > 0;
      assert multiset(where)[s] > 0;
      assert s.userId == userId && multiset(sessions)[s] > 0;
    }
  }

  /** A session of the user that is strictly newer than any returned entry
      was among the ten taken, and is itself returned whenever its game
      exists: only the limit and missing games keep a session out. */
  lemma RecentSessionsKeepNewer(sessions: seq<UserGameSession>, games: seq<Game>, userId: string,
                                t: UserGameSession, e: SessionWithGame)
    requires t in sessions && t.userId == userId
    requires e in RecentSessions(sessions, games, userId)
    requires !PlayedNoEarlier(e.session.lastPlayed, t.lastPlayed)
    ensures t in NewestOfUser(sessions, userId)
    ensures t.gameId in GameIds(games) ==>
              SessionWithGame(t, FindGameById(games, t.gameId).value) in RecentSessions(sessions, games, userId)
  {
    var ranked := SortByLastPlayed(WhereUser(sessions, userId));
    var newest := NewestOfUser(sessions, userId);
    assert newest == ranked[..|newest|];
    var m := EntryWasTaken(sessions, games, userId, e);
    var k := RankOf(sessions, userId, t);
    NewerRanksEarlier(ranked, m, k);
    assert newest[k] == t;
    var rows := LeftJoinGames(newest, games);
    assert RecentSessions(sessions, games, userId) == DropDangling(rows);
    assert rows[k] == JoinedRow(t, FindGameById(games, t.gameId));
    assert rows[k] in rows;
  }

  /** In a sorted ranking, a strictly newer session sits at an earlier position. */
  lemma NewerRanksEarlier(ranked: seq<UserGameSession>, m: nat, k: nat)
    requires SortedByLastPlayed(ranked) && m < |ranked| && k < |ranked|
    requires !PlayedNoEarlier(ranked[m].lastPlayed, ranked[k].lastPlayed)
    ensures k < m
  {
  }

  /** Every one of the ten taken sessions whose game exists is returned with
      that game: the filter removes only rows whose game is missing. */
  lemma TakenWithGameReturned(sessions: seq<UserGameSession>, games: seq<Game>, userId: string,
                              t: UserGameSession)
    requires t in NewestOfUser(sessions, userId) && t.gameId in GameIds(games)
    ensures SessionWithGame(t, FindGameById(games, t.gameId).value) in RecentSessions(sessions, games, userId)
  {
    var newest := NewestOfUser(sessions, userId);
    var rows := LeftJoinGames(newest, games);
    var k :| 0 <= k < |newest| && newest[k] == t;
    assert rows[k] == JoinedRow(t, FindGameById(games, t.gameId));
    assert rows[k] in rows;
  }

  /** A session of the user that the limit leaves out means ten were taken,
      each played no earlier than the one left out. */
  lemma LimitKeepsNewest(sessions: seq<UserGameSession>, userId: string, t: UserGameSession)
    requires t in sessions && t.userId == userId && t !in NewestOfUser(sessions, userId)
    ensures |NewestOfUser(sessions, userId)| == RecentLimit
    ensures forall s :: s in NewestOfUser(sessions, userId) ==> PlayedNoEarlier(s.lastPlayed, t.lastPlayed)
  {
    var ranked := SortByLastPlayed(WhereUser(sessions, userId));
    var newest := NewestOfUser(sessions, userId);
    var k := RankOf(sessions, userId, t);
    assert newest == ranked[..|newest|];
    assert k >= |newest|;
    forall s | s in newest ensures PlayedNoEarlier(s.lastPlayed, t.lastPlayed) {
      var i :| 0 <= i < |newest| && newest[i] == s;
      assert ranked[i] == s && i < k;
    }
  }

  /** The position among the ten taken of the session a returned entry carries. */
  lemma EntryWasTaken(sessions: seq<UserGameSession>, games: seq<Game>, userId: string, e: SessionWithGame)
    returns (m: nat)
    requires e in RecentSessions(sessions, games, userId)
    ensures m < |NewestOfUser(sessions, userId)| && NewestOfUser(sessions, userId)[m] == e.session
  {
    var rows := LeftJoinGames(NewestOfUser(sessions, userId), games);
    assert JoinedRow(e.session, Some(e.game)) in rows;
    m :| 0 <= m < |rows| && rows[m] == JoinedRow(e.session, Some(e.game));
  }

  /** The position of a session of the user in the ranking. */
  lemma RankOf(sessions: seq<UserGameSession>, userId: string, t: UserGameSession) returns (k: nat)
    requires t in sessions && t.userId == userId
    ensures k < |SortByLastPlayed(WhereUser(sessions, userId))|
    ensures SortByLastPlayed(WhereUser(sessions, userId))[k] == t
  {
    var where := WhereUser(sessions, userId);
    var ranked := SortByLastPlayed(where);
    assert multiset(where)[t] > 0;
    assert t in multiset(ranked);
    k :| 0 <= k < |ranked| && ranked[k] == t;
  }

  /** A session of the user strictly newer than all of the user's other
      sessions heads the ten taken. */
  lemma NewestHeadsRanking(sessions: seq<UserGameSession>, userId: string, t: UserGameSession)
    requires t in sessions && t.userId == userId
    requires forall s :: s in sessions && s.userId == userId && s != t ==>
               !PlayedNoEarlier(s.lastPlayed, t.lastPlayed)
    ensures |NewestOfUser(sessions, userId)| > 0 && NewestOfUser(sessions, userId)[0] == t
  {
    var where := WhereUser(sessions, userId);
    var ranked := SortByLastPlayed(where);
    assert multiset(where)[t] > 0;
    assert t in multiset(ranked);
    var k :| 0 <= k < |ranked| && ranked[k] == t;
    assert ranked[0] in multiset(ranked);
    assert multiset(where)[ranked[0]] > 0;
    assert ranked[0] in sessions && ranked[0].userId == userId;
    assert 0 < k ==> PlayedNoEarlier(ranked[0].lastPlayed, ranked[k].lastPlayed);
    assert ranked[0] == t;
  }

  /** When the user's most recent session references a missing game, fewer
      than ten entries come back, however many valid sessions the user has:
      the missing game is dropped after the limit. */
  lemma DanglingNewestShortensResult(sessions: seq<UserGameSession>, games: seq<Game>, userId: string,
                                     t: UserGameSession)
    requires t in sessions && t.userId == userId && t.gameId !in GameIds(games)
    requires forall s :: s in sessions && s.userId == userId && s != t ==>
               !PlayedNoEarlier(s.lastPlayed, t.lastPlayed)
    ensures |RecentSessions(sessions, games, userId)| < RecentLimit
  {
    NewestHeadsRanking(sessions, userId, t);
    var rows := LeftJoinGames(NewestOfUser(sessions, userId), games);
    assert rows[0].game.None?;
    assert rows[0] in rows;
  }

  /** Round trip: a session newer than all of the user's earlier ones, whose
      game exists, is the first entry of the user's recent games once inserted. */
  lemma InsertedNewestComesFirst(sessions: seq<UserGameSession>, games: seq<Game>, s: UserGameSession)
    requires s.gameId in GameIds(games) && s.lastPlayed.Some?
    requires forall t :: t in sessions && t.userId == s.userId ==>
               t.lastPlayed.Some? && t.lastPlayed.value < s.lastPlayed.value
    ensures var r := RecentSessions(sessions + [s], games, s.userId);
      |r| > 0 && r[0].session == s && r[0].game.id == s.gameId
  {
    var all := sessions + [s];
    forall t | t in all && t.userId == s.userId && t != s
      ensures !PlayedNoEarlier(t.lastPlayed, s.lastPlayed)
    {
      assert t in sessions;
    }
    NewestHeadsRanking(all, s.userId, s);
    var rows := LeftJoinGames(NewestOfUser(all, s.userId), games);
    assert rows[0].session == s && rows[0].game.Some?;
  }

  /** Under the foreign key on game_id no entry is dropped: the user gets all
      of their sessions when they have at most ten, and exactly ten otherwise. */
  lemma ConstrainedSessionsNoneDropped(sessions: seq<UserGameSession>, users: seq<User>,
                                       games: seq<Game>, userId: string)
    requires SessionsConstrained(sessions, users, games)
    ensures var count := |WhereUser(sessions, userId)|;
      |RecentSessions(sessions, games, userId)| == if count <= RecentLimit then count else RecentLimit
  {
    var newest := NewestOfUser(sessions, userId);
    NewestOfUserFacts(sessions, userId);
    var rows := LeftJoinGames(newest, games);
    forall row | row in rows ensures row.game.Some? {
      var k :| 0 <= k < |rows| && rows[k] == row;
      assert newest[k] in newest;
    }
    var ranked := SortByLastPlayed(WhereUser(sessions, userId));
    assert |ranked| == |multiset(ranked)| == |WhereUser(sessions, userId)|;
  }

  /* -------------------------------------------------------- updateUserStats */

  /** One row after `SET ...stats, updated_at = now`: a counter is written
      only when supplied, and nothing but the two counters and updated_at changes. */
  function ApplyStats(u: User, stats: StatsUpdate, now: Timestamp): (r: User)
    ensures r.updatedAt == Some(now)
    ensures stats.gamesPlayed.Some? ==> r.gamesPlayed == stats.gamesPlayed
    ensures stats.gamesPlayed.None? ==> r.gamesPlayed == u.gamesPlayed
    ensures stats.hoursPlayed.Some? ==> r.hoursPlayed == stats.hoursPlayed
    ensures stats.hoursPlayed.None? ==> r.hoursPlayed == u.hoursPlayed
    ensures r.(gamesPlayed := u.gamesPlayed, hoursPlayed := u.hoursPlayed, updatedAt := u.updatedAt) == u
  {
    u.(gamesPlayed := if stats.gamesPlayed.Some? then stats.gamesPlayed else u.gamesPlayed,
       hoursPlayed := if stats.hoursPlayed.Some? then stats.hoursPlayed else u.hoursPlayed,
       updatedAt := Some(now))
  }

  /** UPDATE users SET ... WHERE id = $1 over the whole table. */
  function UpdateRows(users: seq<User>, userId: string, stats: StatsUpdate, now: Timestamp): (r: seq<User>)
    ensures |r| == |users|
    ensures forall i :: 0 <= i < |users| ==>
              r[i] == if users[i].id == userId then ApplyStats(users[i], stats, now) else users[i]
  {
    seq(|users|, i requires 0 <= i < |users| =>
      if users[i].id == userId then ApplyStats(users[i], stats, now) else users[i])
  }

  /** The update keeps every key column, so it keeps the users constraints
      and the set of ids; when no row has that id it changes nothing. */
  lemma UpdateRowsKeepsKeys(users: seq<User>, userId: string, stats: StatsUpdate, now: Timestamp)
    ensures var r := UpdateRows(users, userId, stats, now);
      && (UsersConstrained(users) ==> UsersConstrained(r))
      && UserIds(r) == UserIds(users)
      && (userId !in UserIds(users) ==> r == users)
  {
    var r := UpdateRows(users, userId, stats, now);
    forall x | x in UserIds(r) ensures x in UserIds(users) {
      var v :| v in r && v.id == x;
      var k :| 0 <= k < |r| && r[k] == v;
      assert users[k] in users;
    }
    forall x | x in UserIds(users) ensures x in UserIds(r) {
      var v :| v in users && v.id == x;
      var k :| 0 <= k < |users| && users[k] == v;
      assert r[k] in r;
    }
    if userId !in UserIds(users) {
      forall k | 0 <= k < |users| ensures r[k] == users[k] {
        assert users[k] in users;
      }
    }
  }

  /* ---------------------------------------------------------------- inserts */

  /** Whether `e` names a constraint that inserting `row` into `users` violates. */
  predicate UserInsertViolates(users: seq<User>, row: User, e: StoreError)
  {
    match e
    case IntegerOutOfRange => !UserIntsFit(row)
    case UniqueViolation(c) =>
      || (c == UsersPkey && row.id in UserIds(users))
      || (c == UsersUsernameUnique && row.username in Usernames(users))
      || (c == UsersRobloxUserIdUnique && row.robloxUserId.Some? && row.robloxUserId.value in RobloxUserIds(users))
    case ForeignKeyViolation(_) => false
  }

  predicate UserInsertAllowed(users: seq<User>, row: User)
  {
    && UserIntsFit(row)
    && row.id !in UserIds(users)
    && row.username !in Usernames(users)
    && (row.robloxUserId.Some? ==> row.robloxUserId.value !in RobloxUserIds(users))
  }

  predicate SessionInsertViolates(sessions: seq<UserGameSession>, users: seq<User>, games: seq<Game>,
                                  row: UserGameSession, e: StoreError)
  {
    match e
    case IntegerOutOfRange => !FitsInt4(row.playtime)
    case UniqueViolation(c) => c == SessionsPkey && row.id in SessionIds(sessions)
    case ForeignKeyViolation(c) =>
      || (c == SessionsUserIdFkey && row.userId !in UserIds(users))
      || (c == SessionsGameIdFkey && row.gameId !in GameIds(games))
  }

  predicate SessionInsertAllowed(sessions: seq<UserGameSession>, users: seq<User>, games: seq<Game>,
                                 row: UserGameSession)
  {
    && FitsInt4(row.playtime)
    && row.id !in SessionIds(sessions)
    && row.userId in UserIds(users)
    && row.gameId in GameIds(games)
  }

  lemma AppendUserKeepsConstraints(users: seq<User>, row: User)
    requires UsersConstrained(users) && UserInsertAllowed(users, row)
    ensures UsersConstrained(users + [row])
    ensures UserIds(users + [row]) == UserIds(users) + {row.id}
  {
    var all := users + [row];
    forall i | 0 <= i < |users|
      ensures all[i].id != row.id && all[i].username != row.username
      ensures all[i].robloxUserId.Some? && row.robloxUserId.Some? ==> all[i].robloxUserId != row.robloxUserId
    {
      assert users[i] in users;
    }
  }

  lemma AppendGameKeepsConstraints(games: seq<Game>, row: Game)
    requires GamesConstrained(games) && row.id !in GameIds(games)
    ensures GamesConstrained(games + [row])
    ensures GameIds(games + [row]) == GameIds(games) + {row.id}
  {
    forall i | 0 <= i < |games| ensures games[i].id != row.id {
      assert games[i] in games;
    }
  }

  lemma AppendSessionKeepsConstraints(sessions: seq<UserGameSession>, users: seq<User>, games: seq<Game>,
                                      row: UserGameSession)
    requires SessionsConstrained(sessions, users, games) && SessionInsertAllowed(sessions, users, games, row)
    ensures SessionsConstrained(sessions + [row], users, games)
  {
    forall i | 0 <= i < |sessions| ensures sessions[i].id != row.id {
      assert sessions[i] in sessions;
    }
  }

  /* ------------------------------------------------------- DatabaseStorage */

  /** The three tables, rows in insertion order. Valid() holds the primary
      keys, unique columns and foreign keys the schema declares. */
  class DatabaseStorage {
    var users: seq<User>
    var games: seq<Game>
    var userGameSessions: seq<UserGameSession>

    ghost predicate Valid()
      reads this
    {
      && UsersConstrained(users)
      && GamesConstrained(games)
      && SessionsConstrained(userGameSessions, users, games)
    }

    constructor ()
      ensures Valid()
      ensures users == [] && games == [] && userGameSessions == []
    {
      users, games, userGameSessions := [], [], [];
    }

    function GetUser(id: string): Option<User>
      reads this
    {
      FindUserById(users, id)
    }

    function GetUserByUsername(username: string): Option<User>
      reads this
    {
      FindUserByUsername(users, username)
    }

    function AuthenticateUser(credentials: LoginCredentials): Option<User>
      reads this
    {
      Authenticate(users, credentials)
    }

    function GetGames(): seq<Game>
      reads this
    {
      games
    }

    function GetUserGameSessions(userId: string): seq<SessionWithGame>
      reads this
    {
      RecentSessions(userGameSessions, games, userId)
    }

    /** INSERT INTO users ... RETURNING *. */
    method CreateUser(userData: InsertUser, freshId: string, now: Timestamp) returns (r: Result<User>)
      requires Valid()
      modifies this
      ensures Valid()
      ensures games == old(games) && userGameSessions == old(userGameSessions)
      ensures var row := UserRow(userData, freshId, now);
        && (r.Ok? <==> UserInsertAllowed(old(users), row))
        && (r.Ok? ==> r.value == row && users == old(users) + [row])
        && (r.Err? ==> users == old(users) && UserInsertViolates(old(users), row, r.error))
    {
      var row := UserRow(userData, freshId, now);
      if !UserIntsFit(row) {
        r := Err(IntegerOutOfRange);
      } else if row.id in UserIds(users) {
        r := Err(UniqueViolation(UsersPkey));
      } else if row.username in Usernames(users) {
        r := Err(UniqueViolation(UsersUsernameUnique));
      } else if row.robloxUserId.Some? && row.robloxUserId.value in RobloxUserIds(users) {
        r := Err(UniqueViolation(UsersRobloxUserIdUnique));
      } else {
        AppendUserKeepsConstraints(users, row);
        users := users + [row];
        r := Ok(row);
      }
    }

    /** INSERT INTO games ... RETURNING *. */
    method CreateGame(gameData: InsertGame, freshId: string, now: Timestamp) returns (r: Result<Game>)
      requires Valid()
      modifies this
      ensures Valid()
      ensures users == old(users) && userGameSessions == old(userGameSessions)
      ensures var row := GameRow(gameData, freshId, now);
        && (r.Ok? <==> row.id !in GameIds(old(games)))
        && (r.Ok? ==> r.value == row && games == old(games) + [row])
        && (r.Err? ==> games == old(games) && r.error == UniqueViolation(GamesPkey))
    {
      var row := GameRow(gameData, freshId, now);
      if row.id in GameIds(games) {
        r := Err(UniqueViolation(GamesPkey));
      } else {
        AppendGameKeepsConstraints(games, row);
        games := games + [row];
        r := Ok(row);
      }
    }

    /** INSERT INTO user_game_sessions ... RETURNING *. */
    method CreateUserGameSession(sessionData: InsertUserGameSession, freshId: string, now: Timestamp)
      returns (r: Result<UserGameSession>)
      requires Valid()
      modifies this
      ensures Valid()
      ensures users == old(users) && games == old(games)
      ensures var row := SessionRow(sessionData, freshId, now);
        && (r.Ok? <==> SessionInsertAllowed(old(userGameSessions), users, games, row))
        && (r.Ok? ==> r.value == row && userGameSessions == old(userGameSessions) + [row])
        && (r.Err? ==> userGameSessions == old(userGameSessions)
                       && SessionInsertViolates(old(userGameSessions), users, games, row, r.error))
    {
      var row := SessionRow(sessionData, freshId, now);
      if !FitsInt4(row.playtime) {
        r := Err(IntegerOutOfRange);
      } else if row.id in SessionIds(userGameSessions) {
        r := Err(UniqueViolation(SessionsPkey));
      } else if row.userId !in UserIds(users) {
        r := Err(ForeignKeyViolation(SessionsUserIdFkey));
      } else if row.gameId !in GameIds(games) {
        r := Err(ForeignKeyViolation(SessionsGameIdFkey));
      } else {
        AppendSessionKeepsConstraints(userGameSessions, users, games, row);
        userGameSessions := userGameSessions + [row];
        r := Ok(row);
      }
    }

    /** UPDATE users SET ...stats, updated_at = now WHERE id = userId. A
        supplied counter outside the `integer` range fails the statement. */
    method UpdateUserStats(userId: string, stats: StatsUpdate, now: Timestamp) returns (err: Option<StoreError>)
      requires Valid()
      modifies this
      ensures Valid()
      ensures games == old(games) && userGameSessions == old(userGameSessions)
      ensures err.Some? <==> !FitsInt4(stats.gamesPlayed) || !FitsInt4(stats.hoursPlayed)
      ensures err.Some? ==> err.value == IntegerOutOfRange && users == old(users)
      ensures err.None? ==> users == UpdateRows(old(users), userId, stats, now)
    {
      if !FitsInt4(stats.gamesPlayed) || !FitsInt4(stats.hoursPlayed) {
        err := Some(IntegerOutOfRange);
      } else {
        UpdateRowsKeepsKeys(users, userId, stats, now);
        users := UpdateRows(users, userId, stats, now);
        err := None;
      }
    }
  }
}
