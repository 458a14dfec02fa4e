/** The in-memory auth store (`MemStorage`): users by generated id, sessions by
    opaque token with a 24-hour lifetime checked when read, and per-username
    failed-login timestamps pruned to a trailing 15-minute window.

    The pure functions first state what each operation does to the maps; the
    class after them holds the maps as fields and its methods are proved to act
    exactly as those functions say. The clock (`now`), the generated ids and the
    bcrypt salt are parameters. */
module Storage {
  import opened Wrappers
  import opened Schema
  import Hashing

  /** `expiresAt.setHours(expiresAt.getHours() + 24)`, taken as 24 hours of milliseconds. */
  const SessionLifetime: int := 24 * 60 * 60 * 1000
  /** 15 minutes, in milliseconds. */
  const RateLimitWindow: int := 15 * 60 * 1000
  /** A username is blocked once this many recent attempts remain. */
  const MaxAttempts: nat := 5

  /** What `createUser` receives. */
  datatype InsertUser = InsertUser(
    username: string, first_name: string, last_name: string, password: string, user_type: Option<string>)

  /** The store's three maps. A JavaScript `Map` iterates in insertion order, so the
      users map comes with `userOrder`, its keys in the order they were first set. */
  datatype StoreState = StoreState(
    users: map<string, User>,
    userOrder: seq<string>,
    sessions: map<string, Session>,
    loginAttempts: map<string, seq<Timestamp>>)

  /** `order` lists every key of `users` exactly once. */
  ghost predicate OrderMatches(order: seq<string>, users: map<string, User>) {
    && (forall i, j :: 0 <= i < j < |order| ==> order[i] != order[j])
    && (forall id :: id in users <==> id in order)
  }

  /** Every session is stored under its own id and lives exactly `SessionLifetime`. */
  ghost predicate SessionsWellFormed(sessions: map<string, Session>) {
    forall sid :: sid in sessions ==>
      sessions[sid].id == sid && sessions[sid].expires_at == sessions[sid].created_at + SessionLifetime
  }

  ghost predicate WellFormed(st: StoreState) {
    OrderMatches(st.userOrder, st.users) && SessionsWellFormed(st.sessions)
  }

  /** No two stored users share a username. The store does not enforce this; the
      register endpoint keeps it (see Routes.RegisterKeepsUsernamesUnique). */
  ghost predicate UniqueUsernames(users: map<string, User>) {
    forall a, b :: a in users && b in users && users[a].username == users[b].username ==> a == b
  }

  // ---------------------------------------------------------------- users

  /** `Array.from(users.values()).find(u => u.username === username)`: the first
      user in insertion order whose username is exactly `username`. */
  function FindByUsername(order: seq<string>, users: map<string, User>, username: string): (r: Option<User>)
    requires forall i :: 0 <= i < |order| ==> order[i] in users
    ensures r.None? <==> forall i :: 0 <= i < |order| ==> users[order[i]].username != username
    ensures r.Some? ==> r.value.username == username
    ensures r.Some? ==> exists i :: 0 <= i < |order| && users[order[i]] == r.value
                          && forall j :: 0 <= j < i ==> users[order[j]].username != username
  {
    if order == [] then None
    else if users[order[0]].username == username then Some(users[order[0]])
    else
      var r := FindByUsername(order[1..], users, username);
      assert forall i :: 1 <= i < |order| ==> order[1..][i - 1] == order[i];
      r
  }

  /** With the order matching the map, the lookup misses exactly when no stored
      user has that username, and a hit is a stored user. */
  lemma FindByUsernameMeaning(order: seq<string>, users: map<string, User>, username: string)
    requires OrderMatches(order, users)
    ensures forall i :: 0 <= i < |order| ==> order[i] in users
    ensures FindByUsername(order, users, username).None? <==> forall id :: id in users ==> users[id].username != username
    ensures FindByUsername(order, users, username).Some? ==> FindByUsername(order, users, username).value in users.Values
  {
    assert forall i :: 0 <= i < |order| ==> order[i] in order;
    var r := FindByUsername(order, users, username);
    if r.None? {
      forall id | id in users ensures users[id].username != username {
        assert id in order;
        var i :| 0 <= i < |order| && order[i] == id;
      }
    } else {
      var i :| 0 <= i < |order| && users[order[i]] == r.value;
      assert order[i] in users;
    }
  }

  /** The record `createUser` stores: the insert fields, the fresh id, the digest
      in place of the password, and the creation time. */
  function NewUser(insertUser: InsertUser, id: string, salt: string, now: Timestamp): (u: User)
    requires |salt| == Hashing.SaltLength
    ensures u.id == id && u.created_at == now
    ensures Hashing.Verify(insertUser.password, u.password) && u.password != insertUser.password
    ensures u.username == insertUser.username && u.first_name == insertUser.first_name
    ensures u.last_name == insertUser.last_name && u.user_type == insertUser.user_type
  {
    User(id, insertUser.username, insertUser.first_name, insertUser.last_name,
         Hashing.Hash(insertUser.password, salt), insertUser.user_type, now)
  }

  /** `users.set(u.id, u)`: a new key goes last in iteration order, an existing
      key keeps its place and its value is replaced. */
  function AddUser(users: map<string, User>, order: seq<string>, u: User): (r: (map<string, User>, seq<string>))
    requires OrderMatches(order, users)
    ensures OrderMatches(r.1, r.0)
    ensures forall i :: 0 <= i < |r.1| ==> r.1[i] in r.0
    ensures r.0 == users[u.id := u]
    ensures u.id !in users ==> r.1 == order + [u.id]
    ensures u.id in users ==> r.1 == order
  {
    if u.id in users then (users[u.id := u], order)
    else
      var order' := order + [u.id];
      assert forall id :: id in order' <==> id in order || id == u.id;
      (users[u.id := u], order')
  }

  /** Adding a user whose username nobody has keeps usernames unique. */
  lemma AddFreshUsernameKeepsUnique(users: map<string, User>, order: seq<string>, u: User)
    requires OrderMatches(order, users) && UniqueUsernames(users)
    requires forall k :: k in users ==> users[k].username != u.username
    ensures UniqueUsernames(AddUser(users, order, u).0)
  {
    var added := AddUser(users, order, u).0;
    assert forall k :: k in added && k != u.id ==> added[k] == users[k] && added[k].username != u.username;
  }

  /** Adding a user whose username no stored user has makes the lookup of that
      username find exactly the new user. */
  lemma FindAfterAddingFreshUsername(users: map<string, User>, order: seq<string>, u: User)
    requires OrderMatches(order, users)
    requires forall k :: k in users ==> users[k].username != u.username
    ensures var added := AddUser(users, order, u);
            FindByUsername(added.1, added.0, u.username) == Some(u)
  {
    var added := AddUser(users, order, u);
    FindByUsernameMeaning(added.1, added.0, u.username);
    var found := FindByUsername(added.1, added.0, u.username);
    assert found.Some? by {
      assert added.0[u.id].username == u.username;
    }
    assert forall k :: k in added.0 && k != u.id ==> added.0[k] == users[k];
    var k :| k in added.0 && added.0[k] == found.value;
  }

  // ---------------------------------------------------------------- sessions

  /** The session record `createSession` builds: created at `now`, expiring
      exactly one session lifetime (24 hours) later. */
  function NewSession(sessionId: string, username: string, now: Timestamp): (s: Session)
    ensures s.id == sessionId && s.username == username && s.created_at == now
    ensures s.expires_at - s.created_at == SessionLifetime
  {
    Session(sessionId, username, now, now + SessionLifetime)
  }

  /** `createSession`: a session for `username` under `sessionId`, expiring 24
      hours after `now`; every other token keeps its session. */
  function SessionCreate(sessions: map<string, Session>, username: string, sessionId: string, now: Timestamp): (r: map<string, Session>)
    ensures sessionId in r && r[sessionId].username == username
    ensures r[sessionId].id == sessionId && r[sessionId].expires_at == now + SessionLifetime
    ensures forall sid :: sid != sessionId ==> (sid in r <==> sid in sessions)
    ensures forall sid :: sid in sessions && sid != sessionId ==> r[sid] == sessions[sid]
    ensures SessionsWellFormed(sessions) ==> SessionsWellFormed(r)
  {
    sessions[sessionId := NewSession(sessionId, username, now)]
  }

  /** `getSession`: a session is returned only while its expiry is strictly
      later than `now`; a stored but expired one is deleted. */
  function SessionGet(sessions: map<string, Session>, sessionId: string, now: Timestamp): (r: (Option<Session>, map<string, Session>))
    ensures r.0.Some? <==> sessionId in sessions && sessions[sessionId].expires_at > now
    ensures r.0.Some? ==> r.0.value == sessions[sessionId] && r.1 == sessions
    ensures r.0.None? ==> r.1 == sessions - {sessionId}
    ensures SessionsWellFormed(sessions) ==> SessionsWellFormed(r.1)
  {
    if sessionId in sessions && sessions[sessionId].expires_at > now then (Some(sessions[sessionId]), sessions)
    else if sessionId in sessions then (None, sessions - {sessionId})
    else (None, sessions)
  }

  /** `deleteSession`: removes that token only; an absent token is no error. */
  function SessionDelete(sessions: map<string, Session>, sessionId: string): (r: map<string, Session>)
    ensures sessionId !in r
    ensures forall sid :: sid != sessionId ==> (sid in r <==> sid in sessions)
    ensures forall sid :: sid in r ==> r[sid] == sessions[sid]
    ensures sessionId !in sessions ==> r == sessions
  {
    sessions - {sessionId}
  }

  /** A session read right after it is created is returned, and so it is at any
      time before it expires. */
  lemma GetAfterCreate(sessions: map<string, Session>, username: string, sessionId: string, now: Timestamp, later: Timestamp)
    requires now <= later < now + SessionLifetime
    ensures var s := SessionCreate(sessions, username, sessionId, now);
            SessionGet(s, sessionId, later) == (Some(NewSession(sessionId, username, now)), s)
  {
  }

  /** Once a read misses, every later read of that token misses too (the lazy purge
      is permanent), and the other tokens keep their sessions. */
  lemma MissIsPermanent(sessions: map<string, Session>, sessionId: string, now: Timestamp, later: Timestamp)
    requires SessionGet(sessions, sessionId, now).0.None?
    ensures var s := SessionGet(sessions, sessionId, now).1;
            sessionId !in s && SessionGet(s, sessionId, later).0.None?
    ensures forall sid :: sid != sessionId ==>
              (sid in SessionGet(sessions, sessionId, now).1 <==> sid in sessions)
  {
  }

  /** An expired session is never returned again: not at `now`, not later. */
  lemma ExpiredStaysExpired(sessions: map<string, Session>, sessionId: string, now: Timestamp, later: Timestamp)
    requires sessionId in sessions && sessions[sessionId].expires_at <= now <= later
    ensures SessionGet(sessions, sessionId, later).0.None?
    ensures SessionGet(sessions, sessionId, now).1 == sessions - {sessionId}
  {
  }

  /** After a delete, the token is gone for every later read. */
  lemma DeleteThenGetMisses(sessions: map<string, Session>, sessionId: string, now: Timestamp)
    ensures SessionGet(SessionDelete(sessions, sessionId), sessionId, now) == (None, SessionDelete(sessions, sessionId))
  {
  }

  // ---------------------------------------------------------------- login attempts

  /** `loginAttempts.get(username) || []` */
  function AttemptsOf(attempts: map<string, seq<Timestamp>>, username: string): (r: seq<Timestamp>)
    ensures username !in attempts ==> r == []
    ensures username in attempts ==> r == attempts[username]
  {
    if username in attempts then attempts[username] else []
  }

  /** `Date.now() - attempt.getTime() < 15 * 60 * 1000` */
  predicate IsRecent(t: Timestamp, now: Timestamp) { now - t < RateLimitWindow }

  /** `attempts.filter(...)`: the attempts inside the window, in their order. */
  function Recent(attempts: seq<Timestamp>, now: Timestamp): (r: seq<Timestamp>)
    ensures |r| <= |attempts|
    ensures forall t :: t in r <==> t in attempts && IsRecent(t, now)
    ensures forall i :: 0 <= i < |r| ==> IsRecent(r[i], now)
  {
    if attempts == [] then []
    else
      assert forall t :: t in attempts <==> t == attempts[0] || t in attempts[1..];
      (if IsRecent(attempts[0], now) then [attempts[0]] else []) + Recent(attempts[1..], now)
  }

  /** Filtering distributes over concatenation, so the kept attempts stay in order. */
  lemma {:induction false} RecentAppend(a: seq<Timestamp>, b: seq<Timestamp>, now: Timestamp)
    ensures Recent(a + b, now) == Recent(a, now) + Recent(b, now)
  {
    if a == [] {
      assert a + b == b;
    } else {
      assert (a + b)[0] == a[0];
      assert (a + b)[1..] == a[1..] + b;
      RecentAppend(a[1..], b, now);
    }
  }

  /** Attempts that are all inside the window are all kept. */
  lemma {:induction false} RecentKeepsAllRecent(a: seq<Timestamp>, now: Timestamp)
    requires forall i :: 0 <= i < |a| ==> IsRecent(a[i], now)
    ensures Recent(a, now) == a
  {
    if a != [] {
      RecentKeepsAllRecent(a[1..], now);
    }
  }

  /** Attempts that have all aged out of the window are all dropped. */
  lemma {:induction false} RecentDropsAllAged(a: seq<Timestamp>, now: Timestamp)
    requires forall i :: 0 <= i < |a| ==> !IsRecent(a[i], now)
    ensures Recent(a, now) == []
  {
    if a != [] {
      RecentDropsAllAged(a[1..], now);
    }
  }

  /** `recordLoginAttempt`: exactly one timestamp appended to that username's list;
      every other username keeps its list. */
  function RecordAttempt(attempts: map<string, seq<Timestamp>>, username: string, now: Timestamp): (r: map<string, seq<Timestamp>>)
    ensures AttemptsOf(r, username) == AttemptsOf(attempts, username) + [now]
    ensures forall other :: other != username ==> (other in r <==> other in attempts)
    ensures forall other :: other != username && other in attempts ==> r[other] == attempts[other]
  {
    attempts[username := AttemptsOf(attempts, username) + [now]]
  }

  /** `isRateLimited`: the pruned list is written back (even when it was absent)
      and the answer is whether at least five attempts remain. */
  function RateLimitCheck(attempts: map<string, seq<Timestamp>>, username: string, now: Timestamp): (r: (bool, map<string, seq<Timestamp>>))
    ensures r.1 == attempts[username := Recent(AttemptsOf(attempts, username), now)]
    ensures r.0 <==> |AttemptsOf(r.1, username)| >= MaxAttempts
  {
    var recent := Recent(AttemptsOf(attempts, username), now);
    (|recent| >= MaxAttempts, attempts[username := recent])
  }

  /** At a fixed clock a second check finds nothing more to prune and gives the same answer. */
  lemma RateLimitIdempotent(attempts: map<string, seq<Timestamp>>, username: string, now: Timestamp)
    ensures var first := RateLimitCheck(attempts, username, now);
            RateLimitCheck(first.1, username, now) == first
  {
    var recent := Recent(AttemptsOf(attempts, username), now);
    RecentKeepsAllRecent(recent, now);
    assert attempts[username := recent][username := recent] == attempts[username := recent];
  }

  /** Five attempts inside the window block the username. */
  lemma FiveRecentAttemptsBlock(attempts: map<string, seq<Timestamp>>, username: string, now: Timestamp)
    requires |AttemptsOf(attempts, username)| >= MaxAttempts
    requires forall i :: 0 <= i < |AttemptsOf(attempts, username)| ==> IsRecent(AttemptsOf(attempts, username)[i], now)
    ensures RateLimitCheck(attempts, username, now).0
  {
    RecentKeepsAllRecent(AttemptsOf(attempts, username), now);
  }

  /** Once every attempt has aged past the window the username is free again, and
      the stored list is emptied. */
  lemma AgedAttemptsUnblock(attempts: map<string, seq<Timestamp>>, username: string, now: Timestamp)
    requires forall i :: 0 <= i < |AttemptsOf(attempts, username)| ==> !IsRecent(AttemptsOf(attempts, username)[i], now)
    ensures !RateLimitCheck(attempts, username, now).0
    ensures AttemptsOf(RateLimitCheck(attempts, username, now).1, username) == []
  {
    RecentDropsAllAged(AttemptsOf(attempts, username), now);
  }

  // ---------------------------------------------------------------- the store object

  class MemStorage {
    var users: map<string, User>
    var userOrder: seq<string>
    var sessions: map<string, Session>
    var loginAttempts: map<string, seq<Timestamp>>

    function State(): StoreState
      reads this
    {
      StoreState(users, userOrder, sessions, loginAttempts)
    }

    ghost predicate Valid()
      reads this
    {
      WellFormed(State())
    }

    constructor ()
      ensures Valid()
      ensures State() == StoreState(map[], [], map[], map[])
    {
      users := map[];
      userOrder := [];
      sessions := map[];
      loginAttempts := map[];
    }

    /** `getUser`: the user stored under that id, if any. */
    method GetUser(id: string) returns (u: Option<User>)
      ensures u.Some? <==> id in users
      ensures u.Some? ==> u.value == users[id]
    {
      if id in users {
        u := Some(users[id]);
      } else {
        u := None;
      }
    }

    /** `getUserByUsername`: a scan of the users in insertion order. */
    method GetUserByUsername(username: string) returns (u: Option<User>)
      requires Valid()
      ensures u == FindByUsername(userOrder, users, username)
    {
      FindByUsernameMeaning(userOrder, users, username);
      var i := 0;
      while i < |userOrder|
        invariant 0 <= i <= |userOrder|
        invariant FindByUsername(userOrder, users, username) == FindByUsername(userOrder[i..], users, username)
      {
        var candidate := users[userOrder[i]];
        if candidate.username == username {
          return Some(candidate);
        }
        assert userOrder[i..][1..] == userOrder[i + 1..];
        i := i + 1;
      }
      return None;
    }

    /** `createUser`: stores the record under the drawn id with the password hashed. */
    method CreateUser(insertUser: InsertUser, id: string, salt: string, now: Timestamp) returns (u: User)
      requires Valid() && |salt| == Hashing.SaltLength
      modifies this`users, this`userOrder
      ensures Valid()
      ensures u == NewUser(insertUser, id, salt, now)
      ensures (users, userOrder) == AddUser(old(users), old(userOrder), u)
    {
      var hashedPassword := Hashing.Hash(insertUser.password, salt);
      u := User(id, insertUser.username, insertUser.first_name, insertUser.last_name,
                hashedPassword, insertUser.user_type, now);
      if id !in users {
        userOrder := userOrder + [id];
      }
      users := users[id := u];
    }

    /** `createSession`: stores a session under the drawn token and returns the token. */
    method CreateSession(username: string, sessionId: string, now: Timestamp) returns (id: string)
      requires Valid()
      modifies this`sessions
      ensures Valid()
      ensures id == sessionId
      ensures sessions == SessionCreate(old(sessions), username, sessionId, now)
    {
      var expiresAt := now + SessionLifetime;
      var session := Session(sessionId, username, now, expiresAt);
      sessions := sessions[sessionId := session];
      id := sessionId;
    }

    /** `getSession`: lazy expiry, deleting an expired entry when it is read. */
    method GetSession(sessionId: string, now: Timestamp) returns (s: Option<Session>)
      requires Valid()
      modifies this`sessions
      ensures Valid()
      ensures (s, sessions) == SessionGet(old(sessions), sessionId, now)
    {
      if sessionId in sessions && sessions[sessionId].expires_at > now {
        return Some(sessions[sessionId]);
      }
      if sessionId in sessions {
        sessions := sessions - {sessionId};
      }
      return None;
    }

    /** `deleteSession` */
    method DeleteSession(sessionId: string)
      requires Valid()
      modifies this`sessions
      ensures Valid()
      ensures sessions == SessionDelete(old(sessions), sessionId)
    {
      sessions := sessions - {sessionId};
    }

    /** `recordLoginAttempt` */
    method RecordLoginAttempt(username: string, now: Timestamp)
      requires Valid()
      modifies this`loginAttempts
      ensures Valid()
      ensures loginAttempts == RecordAttempt(old(loginAttempts), username, now)
    {
      var attempts := if username in loginAttempts then loginAttempts[username] else [];
      attempts := attempts + [now];
      loginAttempts := loginAttempts[username := attempts];
    }

    /** `isRateLimited`: prune, write back, compare with the limit. */
    method IsRateLimited(username: string, now: Timestamp) returns (limited: bool)
      requires Valid()
      modifies this`loginAttempts
      ensures Valid()
      ensures (limited, loginAttempts) == RateLimitCheck(old(loginAttempts), username, now)
    {
      var attempts := if username in loginAttempts then loginAttempts[username] else [];
      var recentAttempts := Recent(attempts, now);
      loginAttempts := loginAttempts[username := recentAttempts];
      limited := |recentAttempts| >= MaxAttempts;
    }
  }
}
