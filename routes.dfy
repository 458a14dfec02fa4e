/** The HTTP handlers of the server as decision procedures over the store. Each
    handler is a pure specification (`...Spec`, from the store's state before the
    request to the state after it and the response) and a method that performs
    the same store calls in the source's order, proved to match it. Express,
    JSON encoding and the 500 path for exceptions are not modelled. */
module Routes {
  import opened Wrappers
  import opened Text
  import opened Schema
  import opened Storage
  import Hashing

  /** The user fields a response may carry; there is no password field. */
  datatype PublicUser = PublicUser(
    id: string, username: string, first_name: string, last_name: string, user_type: Option<string>)

  function Public(u: User): (p: PublicUser)
    ensures p.id == u.id && p.username == u.username && p.user_type == u.user_type
    ensures p.first_name == u.first_name && p.last_name == u.last_name
  {
    PublicUser(u.id, u.username, u.first_name, u.last_name, u.user_type)
  }

  /** The JSON bodies the handlers send. */
  datatype Body =
    | Message(message: string)
    | ValidationFailed(errors: seq<Issue>)
    | Registered(message: string, user: PublicUser)
    | LoggedIn(session_id: string, user: PublicUser)
    | CurrentUser(user: PublicUser)
    | ChatReply(prompt: string)   // the simulated reply to `prompt`
    | ChatSaved(session_id: string)

  datatype Response = Response(status: nat, body: Body)

  const InvalidCredentials := "Invalid credentials"
  const UsernameTaken := "Username already exists"
  const TooManyAttempts := "Too many login attempts. Try again later."
  const NoSession := "No session provided"
  const InvalidSession := "Invalid session"
  const UserNotFound := "User not found"
  const LoggedOut := "Logged out successfully"

  function RegisteredMessage(username: string): string {
    "User " + username + " registered successfully!"
  }

  /** `req.headers.authorization?.replace('Bearer ', '')`, where the first
      occurrence of "Bearer " is removed wherever it stands, and an absent header
      or an empty remainder means no token. */
  function SessionIdFrom(authorization: Option<string>): (r: Option<string>)
    ensures r.Some? ==> r.value != ""
    ensures authorization.None? ==> r.None?
    ensures authorization.Some? ==>
              && (r.Some? <==> ReplaceFirst(authorization.value, "Bearer ", "") != "")
              && (r.Some? ==> r.value == ReplaceFirst(authorization.value, "Bearer ", ""))
  {
    match authorization
    case None => None
    case Some(header) =>
      var token := ReplaceFirst(header, "Bearer ", "");
      if token == "" then None else Some(token)
  }

  /** A header "Bearer <token>" yields the token. */
  lemma BearerHeaderGivesToken(token: string)
    requires token != ""
    ensures SessionIdFrom(Some("Bearer " + token)) == Some(token)
  {
    ReplaceFirstAtStart("Bearer ", token, "");
    assert "" + token == token;
  }

  /** A non-empty header without "Bearer " anywhere in it is itself the token. */
  lemma BareHeaderIsToken(header: string)
    requires header != ""
    requires forall j :: 0 <= j <= |header| ==> !OccursAt(header, "Bearer ", j)
    ensures SessionIdFrom(Some(header)) == Some(header)
  {
  }

  /** The store invariant the handlers together keep: the map shapes and unique usernames. */
  ghost predicate ServerInvariant(st: StoreState) {
    WellFormed(st) && UniqueUsernames(st.users)
  }

  // ---------------------------------------------------------------- POST /register

  function RegisterSpec(st: StoreState, body: RegisterBody, isEmail: string -> bool,
                        id: string, salt: string, now: Timestamp): (r: (StoreState, Response))
    requires WellFormed(st) && |salt| == Hashing.SaltLength
    ensures WellFormed(r.0)
    ensures r.0.sessions == st.sessions && r.0.loginAttempts == st.loginAttempts
  {
    match ParseRegister(body, isEmail)
    case Err(issues) => (st, Response(400, ValidationFailed(issues)))
    case Ok(data) =>
      FindByUsernameMeaning(st.userOrder, st.users, data.username);
      if FindByUsername(st.userOrder, st.users, data.username).Some? then
        (st, Response(400, Message(UsernameTaken)))
      else
        var u := NewUser(InsertUser(data.username, data.first_name, data.last_name, data.password, None), id, salt, now);
        var added := AddUser(st.users, st.userOrder, u);
        (st.(users := added.0, userOrder := added.1),
         Response(201, Registered(RegisteredMessage(u.username), Public(u))))
  }

  /** A body the registration schema rejects gets 400 with the schema's issues,
      and the store is unchanged. */
  lemma RegisterInvalidRejected(st: StoreState, body: RegisterBody, isEmail: string -> bool,
                                id: string, salt: string, now: Timestamp)
    requires WellFormed(st) && |salt| == Hashing.SaltLength
    requires !ValidRegistration(body, isEmail)
    ensures RegisterSpec(st, body, isEmail, id, salt, now)
              == (st, Response(400, ValidationFailed(RegisterIssues(body, isEmail))))
  {
  }

  method Register(store: MemStorage, body: RegisterBody, isEmail: string -> bool,
                  id: string, salt: string, now: Timestamp) returns (resp: Response)
    requires store.Valid() && |salt| == Hashing.SaltLength
    modifies store
    ensures store.Valid()
    ensures (store.State(), resp) == RegisterSpec(old(store.State()), body, isEmail, id, salt, now)
  {
    var validationResult := ParseRegister(body, isEmail);
    if validationResult.Err? {
      return Response(400, ValidationFailed(validationResult.error));
    }
    var userData := validationResult.value;
    var existingUser := store.GetUserByUsername(userData.username);
    if existingUser.Some? {
      return Response(400, Message(UsernameTaken));
    }
    var user := store.CreateUser(
      InsertUser(userData.username, userData.first_name, userData.last_name, userData.password, None), id, salt, now);
    resp := Response(201, Registered(RegisteredMessage(user.username), Public(user)));
  }

  /** A taken username is refused with 400 and nothing is created. */
  lemma RegisterRefusesTakenUsername(st: StoreState, body: RegisterBody, isEmail: string -> bool,
                                     id: string, salt: string, now: Timestamp, existing: string)
    requires WellFormed(st) && |salt| == Hashing.SaltLength
    requires ParseRegister(body, isEmail).Ok?
    requires existing in st.users && st.users[existing].username == body.username.s
    ensures RegisterSpec(st, body, isEmail, id, salt, now) == (st, Response(400, Message(UsernameTaken)))
  {
    FindByUsernameMeaning(st.userOrder, st.users, body.username.s);
  }

  /** A valid registration of a free username stores one user under the drawn id,
      with the password hashed, answers 201 with its public fields, and a lookup
      of that username now finds exactly this user. */
  lemma RegisterCreatesUser(st: StoreState, body: RegisterBody, isEmail: string -> bool,
                            id: string, salt: string, now: Timestamp)
    requires WellFormed(st) && |salt| == Hashing.SaltLength
    requires ParseRegister(body, isEmail).Ok?
    requires forall k :: k in st.users ==> st.users[k].username != body.username.s
    ensures var r := RegisterSpec(st, body, isEmail, id, salt, now);
            && r.1.status == 201
            && id in r.0.users && r.0.users == st.users[id := r.0.users[id]]
            && r.0.users[id].username == body.username.s
            && r.0.users[id].first_name == body.first_name.s && r.0.users[id].last_name == body.last_name.s
            && r.0.users[id].password != body.password.s
            && Hashing.Verify(body.password.s, r.0.users[id].password)
            && r.0.users[id].created_at == now && r.0.users[id].user_type.None?
            && r.1.body == Registered(RegisteredMessage(body.username.s), Public(r.0.users[id]))
            && FindByUsername(r.0.userOrder, r.0.users, body.username.s) == Some(r.0.users[id])
  {
    var data := ParseRegister(body, isEmail).value;
    FindByUsernameMeaning(st.userOrder, st.users, data.username);
    var u := NewUser(InsertUser(data.username, data.first_name, data.last_name, data.password, None), id, salt, now);
    var added := AddUser(st.users, st.userOrder, u);
    assert RegisterSpec(st, body, isEmail, id, salt, now)
        == (st.(users := added.0, userOrder := added.1), Response(201, Registered(RegisteredMessage(u.username), Public(u))));
    FindAfterAddingFreshUsername(st.users, st.userOrder, u);
  }

  /** Registrations never create a second user with the same username. */
  lemma RegisterKeepsUsernamesUnique(st: StoreState, body: RegisterBody, isEmail: string -> bool,
                                     id: string, salt: string, now: Timestamp)
    requires ServerInvariant(st) && |salt| == Hashing.SaltLength
    ensures ServerInvariant(RegisterSpec(st, body, isEmail, id, salt, now).0)
  {
    match ParseRegister(body, isEmail)
    case Err(_) =>
    case Ok(data) =>
      FindByUsernameMeaning(st.userOrder, st.users, data.username);
      if FindByUsername(st.userOrder, st.users, data.username).None? {
        var u := NewUser(InsertUser(data.username, data.first_name, data.last_name, data.password, None), id, salt, now);
        var added := AddUser(st.users, st.userOrder, u);
        assert RegisterSpec(st, body, isEmail, id, salt, now).0 == st.(users := added.0, userOrder := added.1);
        AddFreshUsernameKeepsUnique(st.users, st.userOrder, u);
      }
  }

  // ---------------------------------------------------------------- POST /login

  function LoginSpec(st: StoreState, body: LoginBody, isEmail: string -> bool,
                     sessionId: string, now: Timestamp): (r: (StoreState, Response))
    requires WellFormed(st)
    ensures WellFormed(r.0)
    ensures r.0.users == st.users && r.0.userOrder == st.userOrder
  {
    match ParseLogin(body, isEmail)
    case Err(_) => (st, Response(400, Message(InvalidCredentials)))
    case Ok(data) =>
      var check := RateLimitCheck(st.loginAttempts, data.username, now);
      var st1 := st.(loginAttempts := check.1);
      if check.0 then
        (st1, Response(429, Message(TooManyAttempts)))
      else
        FindByUsernameMeaning(st.userOrder, st.users, data.username);
        var failed := st1.(loginAttempts := RecordAttempt(st1.loginAttempts, data.username, now));
        match FindByUsername(st.userOrder, st.users, data.username)
        case None => (failed, Response(401, Message(InvalidCredentials)))
        case Some(user) =>
          if !Hashing.Verify(data.password, user.password) then
            (failed, Response(401, Message(InvalidCredentials)))
          else
            (st1.(sessions := SessionCreate(st1.sessions, data.username, sessionId, now)),
             Response(200, LoggedIn(sessionId, Public(user))))
  }

  method Login(store: MemStorage, body: LoginBody, isEmail: string -> bool,
               sessionId: string, now: Timestamp) returns (resp: Response)
    requires store.Valid()
    modifies store
    ensures store.Valid()
    ensures (store.State(), resp) == LoginSpec(old(store.State()), body, isEmail, sessionId, now)
  {
    var validationResult := ParseLogin(body, isEmail);
    if validationResult.Err? {
      return Response(400, Message(InvalidCredentials));
    }
    var username, password := validationResult.value.username, validationResult.value.password;
    var isRateLimited := store.IsRateLimited(username, now);
    if isRateLimited {
      return Response(429, Message(TooManyAttempts));
    }
    var user := store.GetUserByUsername(username);
    if user.None? {
      store.RecordLoginAttempt(username, now);
      return Response(401, Message(InvalidCredentials));
    }
    var isPasswordValid := Hashing.Verify(password, user.value.password);
    if !isPasswordValid {
      store.RecordLoginAttempt(username, now);
      return Response(401, Message(InvalidCredentials));
    }
    var newSessionId := store.CreateSession(username, sessionId, now);
    resp := Response(200, LoggedIn(newSessionId, Public(user.value)));
  }

  /** A malformed body is refused with 400 before the rate limiter is consulted:
      no attempt is pruned or recorded and nothing else changes. */
  lemma LoginMalformedTouchesNothing(st: StoreState, body: LoginBody, isEmail: string -> bool,
                                     sessionId: string, now: Timestamp)
    requires WellFormed(st)
    requires !ValidLogin(body, isEmail)
    ensures LoginSpec(st, body, isEmail, sessionId, now) == (st, Response(400, Message(InvalidCredentials)))
  {
  }

  /** A blocked username gets 429 whatever the password, even the right one: the
      attempts are only pruned, none is recorded, and no session is created. */
  lemma LoginBlockedBeforeCredentials(st: StoreState, body: LoginBody, isEmail: string -> bool,
                                      sessionId: string, now: Timestamp)
    requires WellFormed(st) && ValidLogin(body, isEmail)
    requires |Recent(AttemptsOf(st.loginAttempts, body.username.s), now)| >= MaxAttempts
    ensures var r := LoginSpec(st, body, isEmail, sessionId, now);
            && r.1 == Response(429, Message(TooManyAttempts))
            && r.0 == st.(loginAttempts := RateLimitCheck(st.loginAttempts, body.username.s, now).1)
  {
  }

  /** An unknown username and a wrong password get the same 401 answer, and
      each records exactly one attempt for that username and nothing else. */
  lemma LoginFailuresLookAlike(st: StoreState, body: LoginBody, isEmail: string -> bool,
                               sessionId: string, now: Timestamp)
    requires WellFormed(st) && ValidLogin(body, isEmail)
    requires |Recent(AttemptsOf(st.loginAttempts, body.username.s), now)| < MaxAttempts
    requires forall k :: k in st.users && st.users[k].username == body.username.s
               ==> !Hashing.Verify(body.password.s, st.users[k].password)
    ensures var r := LoginSpec(st, body, isEmail, sessionId, now);
            && r.1 == Response(401, Message(InvalidCredentials))
            && r.0.sessions == st.sessions
            && AttemptsOf(r.0.loginAttempts, body.username.s)
               == Recent(AttemptsOf(st.loginAttempts, body.username.s), now) + [now]
            && forall other :: other != body.username.s ==>
                 AttemptsOf(r.0.loginAttempts, other) == AttemptsOf(st.loginAttempts, other)
  {
    var u := body.username.s;
    FindByUsernameMeaning(st.userOrder, st.users, u);
    var found := FindByUsername(st.userOrder, st.users, u);
    if found.Some? {
      var k :| k in st.users && st.users[k] == found.value;
    }
  }

  /** A login succeeds exactly when the body is well formed, the username is not
      blocked, the user exists and the password verifies. Then it answers 200
      with a new session for that username and the user's public fields, keeps
      the earlier attempts still in the window and records none. */
  lemma LoginSucceedsExactly(st: StoreState, body: LoginBody, isEmail: string -> bool,
                             sessionId: string, now: Timestamp)
    requires WellFormed(st)
    ensures var r := LoginSpec(st, body, isEmail, sessionId, now);
            r.1.status == 200 <==>
              && ValidLogin(body, isEmail)
              && |Recent(AttemptsOf(st.loginAttempts, body.username.s), now)| < MaxAttempts
              && FindByUsername(st.userOrder, st.users, body.username.s).Some?
              && Hashing.Verify(body.password.s, FindByUsername(st.userOrder, st.users, body.username.s).value.password)
    ensures var r := LoginSpec(st, body, isEmail, sessionId, now);
            r.1.status == 200 ==>
              && r.1.body == LoggedIn(sessionId, Public(FindByUsername(st.userOrder, st.users, body.username.s).value))
              && r.0.sessions == SessionCreate(st.sessions, body.username.s, sessionId, now)
              && r.0.loginAttempts == RateLimitCheck(st.loginAttempts, body.username.s, now).1
              && AttemptsOf(r.0.loginAttempts, body.username.s)
                 == Recent(AttemptsOf(st.loginAttempts, body.username.s), now)
  {
    if ValidLogin(body, isEmail) {
      FindByUsernameMeaning(st.userOrder, st.users, body.username.s);
    }
  }

  /** One failed login of an unblocked username: answered 401, and the
      username's list becomes its attempts still in the window plus `now`. */
  lemma FailedLoginAppends(st: StoreState, body: LoginBody, isEmail: string -> bool,
                           sessionId: string, now: Timestamp, prior: seq<Timestamp>)
    requires WellFormed(st) && ValidLogin(body, isEmail)
    requires Recent(AttemptsOf(st.loginAttempts, body.username.s), now) == prior && |prior| < MaxAttempts
    requires forall k :: k in st.users && st.users[k].username == body.username.s
               ==> !Hashing.Verify(body.password.s, st.users[k].password)
    ensures var r := LoginSpec(st, body, isEmail, sessionId, now);
            && r.1.status == 401
            && AttemptsOf(r.0.loginAttempts, body.username.s) == prior + [now]
  {
    LoginFailuresLookAlike(st, body, isEmail, sessionId, now);
  }

  /** The same login body sent at each of `times` in turn: the store after the
      last request and the status of each answer. */
  function LoginSeries(st: StoreState, body: LoginBody, isEmail: string -> bool,
                       sessionId: string, times: seq<Timestamp>): (r: (StoreState, seq<nat>))
    requires WellFormed(st)
    ensures WellFormed(r.0) && r.0.users == st.users && r.0.userOrder == st.userOrder
    ensures |r.1| == |times|
    decreases |times|
  {
    if times == [] then (st, [])
    else
      var first := LoginSpec(st, body, isEmail, sessionId, times[0]);
      var rest := LoginSeries(first.0, body, isEmail, sessionId, times[1..]);
      (rest.0, [first.1.status] + rest.1)
  }

  /** A failed login while everything stored for the username is still inside
      the window: answered 401, nothing is pruned, the time is appended, and the
      rest of the series starts from the store it leaves. */
  lemma FailedSeriesStep(st: StoreState, wrong: LoginBody, isEmail: string -> bool,
                         sessionId: string, prior: seq<Timestamp>,
                         times: seq<Timestamp>, horizon: Timestamp) returns (after: StoreState)
    requires WellFormed(st) && ValidLogin(wrong, isEmail) && times != []
    requires forall k :: k in st.users && st.users[k].username == wrong.username.s
               ==> !Hashing.Verify(wrong.password.s, st.users[k].password)
    requires AttemptsOf(st.loginAttempts, wrong.username.s) == prior
    requires |prior| < MaxAttempts
    requires forall i :: 0 <= i < |prior| ==> IsRecent(prior[i], horizon)
    requires times[0] <= horizon && IsRecent(times[0], horizon)
    ensures WellFormed(after) && after.users == st.users
    ensures AttemptsOf(after.loginAttempts, wrong.username.s) == prior + [times[0]]
    ensures forall i :: 0 <= i < |prior + [times[0]]| ==> IsRecent((prior + [times[0]])[i], horizon)
    ensures var rest := LoginSeries(after, wrong, isEmail, sessionId, times[1..]);
            LoginSeries(st, wrong, isEmail, sessionId, times) == (rest.0, [401] + rest.1)
  {
    RecentKeepsAllRecent(prior, times[0]);
    FailedLoginAppends(st, wrong, isEmail, sessionId, times[0], prior);
    after := LoginSpec(st, wrong, isEmail, sessionId, times[0]).0;
  }

  /** Failed logins while everything stored for the username stays inside the
      window and under the limit: each is answered 401 and appends its time. */
  lemma {:induction false} FailedSeriesAccumulates(st: StoreState, wrong: LoginBody, isEmail: string -> bool,
                                                   sessionId: string, prior: seq<Timestamp>,
                                                   times: seq<Timestamp>, horizon: Timestamp)
    requires WellFormed(st) && ValidLogin(wrong, isEmail)
    requires forall k :: k in st.users && st.users[k].username == wrong.username.s
               ==> !Hashing.Verify(wrong.password.s, st.users[k].password)
    requires AttemptsOf(st.loginAttempts, wrong.username.s) == prior
    requires |prior| + |times| <= MaxAttempts
    requires forall i :: 0 <= i < |prior| ==> IsRecent(prior[i], horizon)
    requires forall i :: 0 <= i < |times| ==> times[i] <= horizon && IsRecent(times[i], horizon)
    ensures var r := LoginSeries(st, wrong, isEmail, sessionId, times);
            && (forall i :: 0 <= i < |r.1| ==> r.1[i] == 401)
            && AttemptsOf(r.0.loginAttempts, wrong.username.s) == prior + times
    decreases |times|
  {
    if times == [] {
      assert prior + times == prior;
    } else {
      var next := prior + [times[0]];
      var after := FailedSeriesStep(st, wrong, isEmail, sessionId, prior, times, horizon);
      FailedSeriesAccumulates(after, wrong, isEmail, sessionId, next, times[1..], horizon);
      ShiftFirst(prior, times);
      UnauthorizedBefore(LoginSeries(after, wrong, isEmail, sessionId, times[1..]).1);
    }
  }

  /** A 401 in front of a list of 401s. */
  lemma UnauthorizedBefore(statuses: seq<nat>)
    requires forall i :: 0 <= i < |statuses| ==> statuses[i] == 401
    ensures forall i :: 0 <= i < |[401] + statuses| ==> ([401] + statuses)[i] == 401
  {
  }

  /** Moving the first time onto the kept list leaves the whole unchanged. */
  lemma ShiftFirst(prior: seq<Timestamp>, times: seq<Timestamp>)
    requires times != []
    ensures (prior + [times[0]]) + times[1..] == prior + times
  {
  }

  /** The first failed login of a username whose stored attempts have all left
      the window: answered 401, the old attempts are pruned and only its own
      time remains; the rest of the series starts from the store it leaves. */
  lemma FirstFailureAfterQuiet(st: StoreState, wrong: LoginBody, isEmail: string -> bool,
                               sessionId: string, times: seq<Timestamp>) returns (after: StoreState)
    requires WellFormed(st) && ValidLogin(wrong, isEmail) && times != []
    requires forall k :: k in st.users && st.users[k].username == wrong.username.s
               ==> !Hashing.Verify(wrong.password.s, st.users[k].password)
    requires forall i :: 0 <= i < |AttemptsOf(st.loginAttempts, wrong.username.s)|
               ==> !IsRecent(AttemptsOf(st.loginAttempts, wrong.username.s)[i], times[0])
    ensures WellFormed(after) && after.users == st.users
    ensures AttemptsOf(after.loginAttempts, wrong.username.s) == [times[0]]
    ensures var rest := LoginSeries(after, wrong, isEmail, sessionId, times[1..]);
            LoginSeries(st, wrong, isEmail, sessionId, times) == (rest.0, [401] + rest.1)
  {
    RecentDropsAllAged(AttemptsOf(st.loginAttempts, wrong.username.s), times[0]);
    FailedLoginAppends(st, wrong, isEmail, sessionId, times[0], []);
    after := LoginSpec(st, wrong, isEmail, sessionId, times[0]).0;
  }

  /** The rate limit across requests: five failed logins for one username
      within 15 minutes are each answered 401, and a sixth login inside the
      same window is answered 429 even with the right password. Attempts
      recorded before the first failure must have left the window by then. */
  lemma FiveFailuresBlockTheSixth(st: StoreState, wrong: LoginBody, right: LoginBody, isEmail: string -> bool,
                                  sessionId: string, times: seq<Timestamp>, now: Timestamp)
    requires WellFormed(st) && ValidLogin(wrong, isEmail) && ValidLogin(right, isEmail)
    requires right.username == wrong.username
    requires forall k :: k in st.users && st.users[k].username == wrong.username.s
               ==> !Hashing.Verify(wrong.password.s, st.users[k].password)
    requires |times| == MaxAttempts
    requires forall i :: 0 <= i < |times| ==> times[0] <= times[i] <= now
    requires now - times[0] < RateLimitWindow
    requires forall i :: 0 <= i < |AttemptsOf(st.loginAttempts, wrong.username.s)|
               ==> !IsRecent(AttemptsOf(st.loginAttempts, wrong.username.s)[i], times[0])
    ensures var series := LoginSeries(st, wrong, isEmail, sessionId, times);
            && (forall i :: 0 <= i < |times| ==> series.1[i] == 401)
            && LoginSpec(series.0, right, isEmail, sessionId, now).1 == Response(429, Message(TooManyAttempts))
  {
    var after := FirstFailureAfterQuiet(st, wrong, isEmail, sessionId, times);
    FailedSeriesAccumulates(after, wrong, isEmail, sessionId, [times[0]], times[1..], now);
    var rest := LoginSeries(after, wrong, isEmail, sessionId, times[1..]);
    ShiftFirst([], times);
    assert [] + times == times;
    UnauthorizedBefore(rest.1);
    RecentKeepsAllRecent(times, now);
    LoginBlockedBeforeCredentials(rest.0, right, isEmail, sessionId, now);
  }


  // ---------------------------------------------------------------- session-gated endpoints

  /** The check shared by /user, /chat and /save-chat: a token must be present
      and name a session that has not expired (an expired one is purged). */
  function AuthenticateSpec(st: StoreState, authorization: Option<string>, now: Timestamp): (r: (StoreState, Result<Session, Response>))
    requires WellFormed(st)
    ensures WellFormed(r.0)
    ensures r.0.users == st.users && r.0.userOrder == st.userOrder && r.0.loginAttempts == st.loginAttempts
    ensures r.1.Err? ==> r.1.error.status == 401
  {
    match SessionIdFrom(authorization)
    case None => (st, Err(Response(401, Message(NoSession))))
    case Some(sessionId) =>
      var got := SessionGet(st.sessions, sessionId, now);
      match got.0
      case None => (st.(sessions := got.1), Err(Response(401, Message(InvalidSession))))
      case Some(session) => (st, Ok(session))
  }

  method Authenticate(store: MemStorage, authorization: Option<string>, now: Timestamp)
    returns (r: Result<Session, Response>)
    requires store.Valid()
    modifies store
    ensures store.Valid()
    ensures (store.State(), r) == AuthenticateSpec(old(store.State()), authorization, now)
  {
    var sessionId := SessionIdFrom(authorization);
    if sessionId.None? {
      return Err(Response(401, Message(NoSession)));
    }
    var session := store.GetSession(sessionId.value, now);
    if session.None? {
      return Err(Response(401, Message(InvalidSession)));
    }
    return Ok(session.value);
  }

  /** GET /user */
  function CurrentUserSpec(st: StoreState, authorization: Option<string>, now: Timestamp): (r: (StoreState, Response))
    requires WellFormed(st)
    ensures WellFormed(r.0)
  {
    var auth := AuthenticateSpec(st, authorization, now);
    match auth.1
    case Err(resp) => (auth.0, resp)
    case Ok(session) =>
      FindByUsernameMeaning(auth.0.userOrder, auth.0.users, session.username);
      match FindByUsername(auth.0.userOrder, auth.0.users, session.username)
      case None => (auth.0, Response(401, Message(UserNotFound)))
      case Some(user) => (auth.0, Response(200, CurrentUser(Public(user))))
  }

  method GetCurrentUser(store: MemStorage, authorization: Option<string>, now: Timestamp) returns (resp: Response)
    requires store.Valid()
    modifies store
    ensures store.Valid()
    ensures (store.State(), resp) == CurrentUserSpec(old(store.State()), authorization, now)
  {
    var auth := Authenticate(store, authorization, now);
    if auth.Err? {
      return auth.error;
    }
    var user := store.GetUserByUsername(auth.value.username);
    if user.None? {
      return Response(401, Message(UserNotFound));
    }
    resp := Response(200, CurrentUser(Public(user.value)));
  }

  /** GET /user answers 401 exactly when the token is missing, names no live
      session, or its user is gone; otherwise 200 with that user's public fields. */
  lemma CurrentUserOutcomes(st: StoreState, authorization: Option<string>, now: Timestamp)
    requires WellFormed(st)
    ensures var r := CurrentUserSpec(st, authorization, now);
            var token := SessionIdFrom(authorization);
            && (r.1.status == 401 || r.1.status == 200)
            && (r.1.status == 401 <==>
                  || token.None?
                  || SessionGet(st.sessions, token.value, now).0.None?
                  || FindByUsername(st.userOrder, st.users, SessionGet(st.sessions, token.value, now).0.value.username).None?)
            && (r.1.status == 200 ==>
                  r.1.body == CurrentUser(Public(FindByUsername(st.userOrder, st.users,
                                SessionGet(st.sessions, token.value, now).0.value.username).value)))
  {
    FindByUsernameMeaning(st.userOrder, st.users, "");
  }

  /** POST /logout */
  function LogoutSpec(st: StoreState, authorization: Option<string>): (r: (StoreState, Response))
    requires WellFormed(st)
    ensures WellFormed(r.0)
  {
    match SessionIdFrom(authorization)
    case None => (st, Response(200, Message(LoggedOut)))
    case Some(sessionId) => (st.(sessions := SessionDelete(st.sessions, sessionId)), Response(200, Message(LoggedOut)))
  }

  method Logout(store: MemStorage, authorization: Option<string>) returns (resp: Response)
    requires store.Valid()
    modifies store
    ensures store.Valid()
    ensures (store.State(), resp) == LogoutSpec(old(store.State()), authorization)
  {
    var sessionId := SessionIdFrom(authorization);
    if sessionId.Some? {
      store.DeleteSession(sessionId.value);
    }
    resp := Response(200, Message(LoggedOut));
  }

  /** Logout always succeeds; it removes the named session when a token is
      present and changes nothing else. */
  lemma LogoutAlwaysSucceeds(st: StoreState, authorization: Option<string>)
    requires WellFormed(st)
    ensures var r := LogoutSpec(st, authorization);
            && r.1 == Response(200, Message(LoggedOut))
            && r.0.users == st.users && r.0.loginAttempts == st.loginAttempts
            && (SessionIdFrom(authorization).None? ==> r.0.sessions == st.sessions)
            && (SessionIdFrom(authorization).Some? ==>
                  r.0.sessions == st.sessions - {SessionIdFrom(authorization).value})
  {
  }

  /** POST /chat: the session check comes first, then the body is validated. */
  function ChatSpec(st: StoreState, authorization: Option<string>, body: ChatRequestBody, now: Timestamp): (r: (StoreState, Response))
    requires WellFormed(st)
    ensures WellFormed(r.0)
    ensures r.0.users == st.users && r.0.loginAttempts == st.loginAttempts
  {
    var auth := AuthenticateSpec(st, authorization, now);
    match auth.1
    case Err(resp) => (auth.0, resp)
    case Ok(_) =>
      match ParseChatRequest(body)
      case Err(issues) => (auth.0, Response(400, ValidationFailed(issues)))
      case Ok(request) => (auth.0, Response(200, ChatReply(request.prompt)))
  }

  method Chat(store: MemStorage, authorization: Option<string>, body: ChatRequestBody, now: Timestamp) returns (resp: Response)
    requires store.Valid()
    modifies store
    ensures store.Valid()
    ensures (store.State(), resp) == ChatSpec(old(store.State()), authorization, body, now)
  {
    var auth := Authenticate(store, authorization, now);
    if auth.Err? {
      return auth.error;
    }
    var validationResult := ParseChatRequest(body);
    if validationResult.Err? {
      return Response(400, ValidationFailed(validationResult.error));
    }
    resp := Response(200, ChatReply(validationResult.value.prompt));
  }

  /** POST /save-chat: session-gated acknowledgement echoing the token. */
  function SaveChatSpec(st: StoreState, authorization: Option<string>, now: Timestamp): (r: (StoreState, Response))
    requires WellFormed(st)
    ensures WellFormed(r.0)
  {
    var auth := AuthenticateSpec(st, authorization, now);
    match auth.1
    case Err(resp) => (auth.0, resp)
    case Ok(session) => (auth.0, Response(200, ChatSaved(session.id)))
  }

  method SaveChat(store: MemStorage, authorization: Option<string>, now: Timestamp) returns (resp: Response)
    requires store.Valid()
    modifies store
    ensures store.Valid()
    ensures (store.State(), resp) == SaveChatSpec(old(store.State()), authorization, now)
  {
    var sessionId := SessionIdFrom(authorization);
    var auth := Authenticate(store, authorization, now);
    if auth.Err? {
      return auth.error;
    }
    resp := Response(200, ChatSaved(sessionId.value));
  }

  /** Both chat endpoints answer 401 without a live session, whatever the body;
      with one, /chat answers 400 exactly when the body is invalid and otherwise
      replies to the prompt, and /save-chat echoes the token. */
  lemma ChatEndpointsNeedSession(st: StoreState, authorization: Option<string>, body: ChatRequestBody, now: Timestamp)
    requires WellFormed(st)
    ensures var token := SessionIdFrom(authorization);
            var live := token.Some? && SessionGet(st.sessions, token.value, now).0.Some?;
            && (!live ==> (ChatSpec(st, authorization, body, now).1.status == 401
                           && SaveChatSpec(st, authorization, now).1.status == 401))
            && (live ==> (ChatSpec(st, authorization, body, now).1.status == 400 <==> !ValidChatRequest(body)))
            && (live && !ValidChatRequest(body) ==>
                  ChatSpec(st, authorization, body, now).1 == Response(400, ValidationFailed(ChatRequestIssues(body))))
            && (live && ValidChatRequest(body) ==>
                  ChatSpec(st, authorization, body, now).1 == Response(200, ChatReply(body.prompt.s)))
            && (live ==> SaveChatSpec(st, authorization, now).1 == Response(200, ChatSaved(token.value)))
  {
  }

  // ---------------------------------------------------------------- across requests

  /** Every handler keeps the server invariant: well-formed maps and unique usernames. */
  lemma HandlersKeepInvariant(st: StoreState, isEmail: string -> bool, authorization: Option<string>,
                              registerBody: RegisterBody, loginBody: LoginBody, chatBody: ChatRequestBody,
                              id: string, salt: string, sessionId: string, now: Timestamp)
    requires ServerInvariant(st) && |salt| == Hashing.SaltLength
    ensures ServerInvariant(RegisterSpec(st, registerBody, isEmail, id, salt, now).0)
    ensures ServerInvariant(LoginSpec(st, loginBody, isEmail, sessionId, now).0)
    ensures ServerInvariant(CurrentUserSpec(st, authorization, now).0)
    ensures ServerInvariant(LogoutSpec(st, authorization).0)
    ensures ServerInvariant(ChatSpec(st, authorization, chatBody, now).0)
    ensures ServerInvariant(SaveChatSpec(st, authorization, now).0)
  {
    RegisterKeepsUsernamesUnique(st, registerBody, isEmail, id, salt, now);
  }

  /** A registered user can log in with the same username and password, as
      long as the username is not blocked. */
  lemma RegisterThenLogin(st: StoreState, body: RegisterBody, isEmail: string -> bool,
                          id: string, salt: string, now: Timestamp, sessionId: string, later: Timestamp)
    requires WellFormed(st) && |salt| == Hashing.SaltLength
    requires ParseRegister(body, isEmail).Ok?
    requires forall k :: k in st.users ==> st.users[k].username != body.username.s
    requires |Recent(AttemptsOf(st.loginAttempts, body.username.s), later)| < MaxAttempts
    ensures var registered := RegisterSpec(st, body, isEmail, id, salt, now).0;
            LoginSpec(registered, LoginBody(body.username, body.password), isEmail, sessionId, later).1
              == Response(200, LoggedIn(sessionId, Public(registered.users[id])))
  {
    RegisterCreatesUser(st, body, isEmail, id, salt, now);
    RegistrationPassesLogin(body, isEmail);
  }

  /** With the hash stand-in, a freshly registered user's login with any other
      password of valid form is refused like an unknown user, and the attempt
      is recorded. */
  lemma RegisterThenWrongPassword(st: StoreState, body: RegisterBody, isEmail: string -> bool,
                                  id: string, salt: string, now: Timestamp, sessionId: string,
                                  later: Timestamp, other: string)
    requires WellFormed(st) && |salt| == Hashing.SaltLength
    requires ParseRegister(body, isEmail).Ok?
    requires forall k :: k in st.users ==> st.users[k].username != body.username.s
    requires |Recent(AttemptsOf(st.loginAttempts, body.username.s), later)| < MaxAttempts
    requires |other| >= 8 && body.password.Str? && other != body.password.s
    ensures var registered := RegisterSpec(st, body, isEmail, id, salt, now).0;
            var r := LoginSpec(registered, LoginBody(body.username, Str(other)), isEmail, sessionId, later);
            && r.1 == Response(401, Message(InvalidCredentials))
            && AttemptsOf(r.0.loginAttempts, body.username.s)
               == Recent(AttemptsOf(st.loginAttempts, body.username.s), later) + [later]
  {
    RegisterCreatesUser(st, body, isEmail, id, salt, now);
    RegistrationPassesLogin(body, isEmail);
    Hashing.VerifyOnlyOriginal(body.password.s, other, salt);
    var registered := RegisterSpec(st, body, isEmail, id, salt, now).0;
    LoginFailuresLookAlike(registered, LoginBody(body.username, Str(other)), isEmail, sessionId, later);
  }

  /** The session life cycle across requests: after a successful login, the token
      authenticates /user until the session expires; after logout with that
      token, /user refuses it. */
  lemma SessionLifecycle(st: StoreState, body: LoginBody, isEmail: string -> bool,
                         sessionId: string, now: Timestamp, later: Timestamp, last: Timestamp)
    requires WellFormed(st) && sessionId != ""
    requires LoginSpec(st, body, isEmail, sessionId, now).1.status == 200
    requires now <= later < now + SessionLifetime
    ensures var loggedIn := LoginSpec(st, body, isEmail, sessionId, now);
            var header := Some("Bearer " + sessionId);
            && CurrentUserSpec(loggedIn.0, header, later).1
                 == Response(200, CurrentUser(loggedIn.1.body.user))
            && var loggedOut := LogoutSpec(CurrentUserSpec(loggedIn.0, header, later).0, header).0;
               CurrentUserSpec(loggedOut, header, last).1 == Response(401, Message(InvalidSession))
  {
    LoginSucceedsExactly(st, body, isEmail, sessionId, now);
    BearerHeaderGivesToken(sessionId);
    var u := body.username.s;
    var loggedIn := LoginSpec(st, body, isEmail, sessionId, now);
    FindByUsernameMeaning(st.userOrder, st.users, u);
    assert loggedIn.0.sessions[sessionId].username == u;
  }
}
