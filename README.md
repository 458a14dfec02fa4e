# Auth and chat web app: a Dafny model

This project models the core of a small web application. The server has
registration, login with a rate limiter, session-token authentication and two
chat endpoints. The React client has an API configuration, a chat page and a
registration form. The model covers:

- **The in-memory store** (`server/storage.ts`). `Storage.MemStorage` is a class
  whose fields are the users map (with the map's insertion order in
  `userOrder`), the sessions map and the login-attempt lists. Each method
  is proved equal to a pure function over those maps (`SessionGet`,
  `RateLimitCheck`, ...), and the properties are lemmas about those functions.
- **The request validators** (`shared/schema.ts`). The zod schemas are lists
  of checks. Each check gives the zod issue it reports when it fails. A parse
  succeeds exactly when the issue list is empty.
- **The HTTP handlers** (`server/routes.ts`). Each handler is a pure `...Spec`
  function from the store's state before the request to its state after and
  the response. A method makes the same store calls in the same order and is
  proved to match the spec. The lemmas cover behaviour across requests:
  usernames stay unique, a registered user can log in, and a session lives
  until logout or expiry.
- **The client API configuration** (`client/src/config/api.ts`). This
  includes the base-URL precedence, the fallback to development and the
  endpoint URL builder.
- **The chat page** (`client/src/pages/chat.tsx`). `ChatPage.Chat` is a class
  holding the component's state. Each handler is a method on it.
- **The register page** (`client/src/pages/register.tsx`). This covers the
  strength meter (a method with five increments), the strength bar, the
  confirm-password rule and the terms gate.

Abstractions used throughout:
- The clock is a parameter `now` in milliseconds.
- `randomUUID` results are parameters: the user id and the session token.
- bcrypt is a stand-in, `Hashing.Hash(p, salt) = "$2b$10$" + salt + p`. The
  22-character salt is a parameter. The store relies on two facts: the hash
  verifies the password it was made from, and it never equals that password.
- zod's e-mail check is a parameter `isEmail`.

## Model

| member | source | states |
|---|---|---|
| Text.Trim | client/src/pages/chat.tsx:146 | `trim()` gives "" exactly when every character is JavaScript whitespace |
| Text.IndexOfFrom | server/routes.ts:121 | the first index at or after `k` where the pattern occurs, or none when it occurs nowhere from `k` on |
| Text.ReplaceFirst | server/routes.ts:121 | `replace` with a string pattern: unchanged when the pattern occurs nowhere; otherwise the first occurrence, and only it, is replaced |
| Text.ReplaceFirstAtStart | server/routes.ts:121 | `replace` with a string pattern replaces the leading occurrence when the string starts with the pattern |
| Hashing.Hash | server/storage.ts:52-54 | the stored hash verifies the password, differs from it and carries the `$2b$10$` prefix of cost 10 |
| Hashing.Verify | server/storage.ts:56-58 | `compare` succeeds only on a hash with the `$2b$10$` prefix, and never when the hash is the plaintext itself |
| Hashing.VerifyOnlyOriginal | server/storage.ts:56-58 | `compare(other, hash(p))` holds exactly when `other == p` |
| Schema.CheckIssues | shared/schema.ts:30-40 | no issue exactly when every check holds; at most one issue per check, all on the field's path; a single check gives its own message exactly when it fails |
| Schema.CheckIssuesAppend | shared/schema.ts:30-40 | the issues of two lists of checks are those of the first followed by those of the second, so each failed check gives one issue with its message, in check order |
| Schema.NameChecksMeaning | shared/schema.ts:32-33 | first_name and last_name pass exactly when their length is 1 to 50 |
| Schema.PasswordChecksMeaning | shared/schema.ts:34-39 | a password passes exactly when it has at least 8 characters, an A-Z, an a-z, a digit and one of `!@#$%^&*(),.?":{}\|<>` |
| Schema.ParseRegister | shared/schema.ts:30-40 | success exactly for a valid registration, and then the data is the body's four strings (user_type is stripped); otherwise the non-empty issue list |
| Schema.ParseLogin | shared/schema.ts:43-46 | success exactly for an e-mail username and a password of at least 8 characters; otherwise the non-empty issue list |
| Schema.RegistrationPassesLogin | shared/schema.ts:45 | every body the register schema accepts gives a login body the login schema accepts with the same data |
| Schema.ParseChatRequest | shared/schema.ts:72-75 | success exactly for a prompt of 1 to 4000 characters and a session_id that is absent or a string |
| Schema.ParseCreateChatSession | shared/schema.ts:77-79 | success exactly for a title of 1 to 100 characters |
| Storage.FindByUsername | server/storage.ts:33-37 | the first user in insertion order whose username matches exactly; none exactly when no user's name matches |
| Storage.FindByUsernameMeaning | server/storage.ts:33-37 | over a consistent store, the lookup misses exactly when no stored user has the username, and a hit is a stored user |
| Storage.NewUser | server/storage.ts:39-47 | the record keeps the insert data, gets the drawn id and `now`, and its password is a hash that verifies the given password and differs from it |
| Storage.AddUser | server/storage.ts:48 | `users.set(id, u)`: the map gains or replaces `id`; a new id goes last in iteration order and a replaced id keeps its place; the order stays consistent |
| Storage.AddFreshUsernameKeepsUnique | server/storage.ts:48 | adding a user whose username nobody has keeps usernames unique |
| Storage.FindAfterAddingFreshUsername | server/storage.ts:33-50 | after storing a user with a fresh username, looking that username up finds exactly that user |
| Storage.NewSession | server/storage.ts:65-70 | the session carries the token, the username and `now` as created_at, and expires exactly 24 hours after it was created |
| Storage.SessionCreate | server/storage.ts:60-74 | the token maps to a session for the username that expires 24 hours after `now`; all other tokens keep their sessions |
| Storage.SessionGet | server/storage.ts:76-85 | a session is returned exactly when stored with expiry strictly later than `now`; on a miss the token is removed and nothing else changes |
| Storage.SessionDelete | server/storage.ts:87-89 | only that token is removed; deleting an absent token changes nothing |
| Storage.GetAfterCreate | server/storage.ts:60-80 | a session read at any time before 24 hours after creation returns the created session |
| Storage.MissIsPermanent | server/storage.ts:81-84 | after a miss the token is gone, so every later read misses, and the other tokens are unchanged |
| Storage.ExpiredStaysExpired | server/storage.ts:76-84 | an expired session is never returned again, and reading it deletes it |
| Storage.DeleteThenGetMisses | server/storage.ts:76-89 | after deleteSession, getSession of that token misses |
| Storage.AttemptsOf | server/storage.ts:92-98 | `loginAttempts.get(username) \|\| []`: the stored list, or the empty list for a username never seen |
| Storage.Recent | server/storage.ts:99-101 | exactly the attempts with `now - t < 15 min` are kept |
| Storage.RecentAppend | server/storage.ts:99-101 | the filter distributes over concatenation, so the kept attempts stay in order |
| Storage.RecentKeepsAllRecent | server/storage.ts:99-101 | attempts all inside the window are all kept |
| Storage.RecentDropsAllAged | server/storage.ts:99-101 | attempts all outside the window are all dropped |
| Storage.RecordAttempt | server/storage.ts:91-95 | exactly `now` is appended to that username's list; every other username keeps its list |
| Storage.RateLimitCheck | server/storage.ts:97-107 | the pruned list is written back, even for an unknown username, and the answer is true exactly when at least 5 attempts remain |
| Storage.RateLimitIdempotent | server/storage.ts:97-107 | at a fixed clock a second check leaves the same lists and gives the same answer |
| Storage.FiveRecentAttemptsBlock | server/storage.ts:97-107 | five attempts inside the window make the username rate limited |
| Storage.AgedAttemptsUnblock | server/storage.ts:97-107 | once every attempt is older than the window, the username is free and its stored list is empty |
| Storage.MemStorage.constructor | server/storage.ts:23-27 | the store starts with three empty maps |
| Storage.MemStorage.GetUser | server/storage.ts:29-31 | the user stored under the id, if any |
| Storage.MemStorage.GetUserByUsername | server/storage.ts:33-37 | the loop over insertion order returns `FindByUsername` |
| Storage.MemStorage.CreateUser | server/storage.ts:39-50 | returns `NewUser` and stores it as `AddUser` describes; no other field changes |
| Storage.MemStorage.CreateSession | server/storage.ts:60-74 | returns the drawn token and the sessions become `SessionCreate` |
| Storage.MemStorage.GetSession | server/storage.ts:76-85 | result and new sessions are `SessionGet` |
| Storage.MemStorage.DeleteSession | server/storage.ts:87-89 | the sessions become `SessionDelete` |
| Storage.MemStorage.RecordLoginAttempt | server/storage.ts:91-95 | the attempt lists become `RecordAttempt` |
| Storage.MemStorage.IsRateLimited | server/storage.ts:97-107 | answer and new lists are `RateLimitCheck` |
| Routes.Public | server/routes.ts:39-45 | a response's user has the stored user's id, username, names and user_type; the type has no password field |
| Routes.SessionIdFrom | server/routes.ts:121 | no token without a header; otherwise the token is the header with its first "Bearer " removed, present exactly when that is not empty |
| Routes.BearerHeaderGivesToken | server/routes.ts:121 | the header `Bearer <token>` yields `<token>` |
| Routes.BareHeaderIsToken | server/routes.ts:121 | a non-empty header with no "Bearer " in it is itself the token |
| Routes.RegisterSpec | server/routes.ts:12-46 | the store stays consistent; sessions and login attempts are untouched |
| Routes.RegisterInvalidRejected | server/routes.ts:14-22 | a body the schema rejects gets 400 with the schema's issues, and the store is unchanged |
| Routes.Register | server/routes.ts:9-54 | the handler's store calls and response are `RegisterSpec` |
| Routes.RegisterRefusesTakenUsername | server/routes.ts:27-32 | a valid body with a taken username gets 400 "Username already exists" and the store is unchanged |
| Routes.RegisterCreatesUser | server/routes.ts:34-46 | a free username gets 201 and one new user under the drawn id, with the body's username, first and last name, a hashed password, `now` and no user_type; the body holds its public fields, and a lookup finds it |
| Routes.RegisterKeepsUsernamesUnique | server/routes.ts:27-35 | registrations keep usernames unique |
| Routes.LoginSpec | server/routes.ts:60-108 | the store stays consistent; users are untouched |
| Routes.Login | server/routes.ts:57-116 | the handler's store calls and response are `LoginSpec` |
| Routes.LoginMalformedTouchesNothing | server/routes.ts:60-66 | a malformed body gets 400 "Invalid credentials" with the store unchanged: no pruning, no attempt |
| Routes.LoginBlockedBeforeCredentials | server/routes.ts:71-76 | a blocked username gets 429 whatever the password; the attempts are only pruned, none is recorded, and no session is made |
| Routes.LoginFailuresLookAlike | server/routes.ts:79-94 | an unknown user and a wrong password both get 401 "Invalid credentials" and record exactly one attempt for that username only |
| Routes.FailedLoginAppends | server/routes.ts:79-94 | a failed login of an unblocked username gets 401, and its list becomes the attempts still in the window followed by `now` |
| Routes.LoginSeries | server/routes.ts:57-116 | logins sent one after another: one status per request, and the users are untouched |
| Routes.FailedSeriesStep | server/routes.ts:71-94 | a failed login whose stored attempts are all still in the window and fewer than 5 gets 401, prunes nothing and appends its time |
| Routes.FailedSeriesAccumulates | server/routes.ts:71-94 | failed logins that stay under the limit inside the window each get 401 and each append their time to the username's list |
| Routes.FirstFailureAfterQuiet | server/routes.ts:71-94 | the first failed login after every stored attempt has aged out gets 401 and leaves only its own time in the list |
| Routes.FiveFailuresBlockTheSixth | server/routes.ts:71-94 | five failed logins of one username within 15 minutes each get 401, and a sixth inside the same window gets 429 even with the right password |
| Routes.LoginSucceedsExactly | server/routes.ts:96-108 | 200 exactly for a valid, unblocked login whose password verifies; then one session for the username, its token and the public user are returned, and the attempts are pruned but none is recorded |
| Routes.AuthenticateSpec | server/routes.ts:139-152 | the token check: any failure is 401; only sessions can change |
| Routes.Authenticate | server/routes.ts:139-152 | the check's store calls and result are `AuthenticateSpec` |
| Routes.CurrentUserSpec | server/routes.ts:137-169 | the store stays consistent |
| Routes.GetCurrentUser | server/routes.ts:137-177 | the handler's store calls and response are `CurrentUserSpec` |
| Routes.CurrentUserOutcomes | server/routes.ts:137-169 | 401 exactly on a missing token, a missing or expired session, or a missing user; otherwise 200 with that user's public fields |
| Routes.LogoutSpec | server/routes.ts:119-127 | the store stays consistent |
| Routes.Logout | server/routes.ts:119-134 | the handler's store calls and response are `LogoutSpec` |
| Routes.LogoutAlwaysSucceeds | server/routes.ts:119-127 | always 200 "Logged out successfully"; the session is removed only when a token is present; nothing else changes |
| Routes.ChatSpec | server/routes.ts:180-217 | users and login attempts are untouched |
| Routes.Chat | server/routes.ts:180-225 | the handler's store calls and response are `ChatSpec` |
| Routes.SaveChatSpec | server/routes.ts:228-249 | the store stays consistent |
| Routes.SaveChat | server/routes.ts:228-257 | the handler's store calls and response are `SaveChatSpec` |
| Routes.ChatEndpointsNeedSession | server/routes.ts:182-249 | without a live session both endpoints answer 401 whatever the body; with one, /chat answers 400 with the schema's issues exactly for an invalid body and otherwise replies, and /save-chat echoes the token |
| Routes.HandlersKeepInvariant | server/routes.ts:9-249 | every handler keeps the store consistent with unique usernames |
| Routes.RegisterThenLogin | server/routes.ts:12-108 | a freshly registered user who is not blocked logs in with the same username and password |
| Routes.RegisterThenWrongPassword | server/routes.ts:12-94 | a freshly registered user who is not blocked is refused with 401 for any other password of valid form, and the attempt is recorded |
| Routes.SessionLifecycle | server/routes.ts:96-169 | after a login the token authenticates /user until expiry; after logout with it, /user refuses it |
| ApiConfig.EveryEndpointHasAPath | client/src/config/api.ts:28-35 | every endpoint has a non-empty path in the table |
| ApiConfig.BaseUrl | client/src/config/api.ts:68-90 | a non-empty VITE_API_BASE_URL wins; else a VITE_API_ENV found by the lookup gives its base URL, undefined exactly when the lookup finds an inherited member; else production or development by NODE_ENV |
| ApiConfig.CurrentEnvironment | client/src/config/api.ts:93-109 | a non-empty VITE_API_ENV is the name; otherwise "production" exactly when NODE_ENV is "production", and "development" for anything else, missing included |
| ApiConfig.ApiConfigOf | client/src/config/api.ts:112-132 | the base URL is always `getBaseUrl`'s; an own configuration gives its timeout and endpoints, a name not found gives development's, and an inherited member gives neither |
| ApiConfig.StripTrailingSlash | client/src/config/api.ts:149 | at most one trailing '/' is removed and the rest is a prefix of the input |
| ApiConfig.EndpointUrl | client/src/config/api.ts:135-150 | no endpoint table is a TypeError; a missing or empty path is "endpoint not found"; an empty base gives the path; otherwise the stripped base followed by the path |
| ApiConfig.GetEndpointUrlAsWritten | client/src/config/api.ts:135-150 | as written, the only failure is a TypeError, exactly when VITE_API_ENV names an Object.prototype member; a URL ends in the endpoint's path |
| ApiConfig.GetEndpointUrl | client/src/config/api.ts:135-150 | with the own-key lookup the URL always resolves and ends in the endpoint's path |
| ApiConfig.BaseUrlPrecedence | client/src/config/api.ts:68-90 | a non-empty VITE_API_BASE_URL wins, with either lookup; else a known VITE_API_ENV gives its base URL; else NODE_ENV 'production' gives the production URL and anything else "" |
| ApiConfig.UnknownEnvironmentFallsBack | client/src/config/api.ts:112-121 | an unknown environment name gets the development timeout and endpoints, with the base URL from the precedence rule |
| ApiConfig.EndpointUrlAlwaysResolves | client/src/config/api.ts:135-150 | with own-key lookup every endpoint resolves, to the path or to the stripped base URL plus the path |
| ApiConfig.PrototypeMemberNameBreaksEndpoints | client/src/config/api.ts:76-77 | as written, an environment name like "toString" makes the base URL undefined and every endpoint URL a TypeError; the own-key lookup resolves it |
| ApiConfig.PrototypeMemberIsInherited | client/src/config/api.ts:23-65 | no Object.prototype member name is a configuration key |
| ApiConfig.LookupsAgreeOffPrototype | client/src/config/api.ts:114 | for any other environment name the two lookups give the same endpoint URLs |
| ChatPage.NewChatTitle | client/src/pages/chat.tsx:134 | "New Chat " followed by the decimal digits, without a leading zero, of the list length plus one |
| ChatPage.NewChatTitlesDistinct | client/src/pages/chat.tsx:134 | two "New Chat n" titles are equal exactly when made at the same list length |
| ChatPage.NewChatTitleCanRepeat | client/src/pages/chat.tsx:134 | titles are not unique: after a delete shortens the list, a new chat can take a title that is still listed |
| ChatPage.WithoutSession | client/src/pages/chat.tsx:175 | a session stays exactly when it was listed and its id differs |
| ChatPage.WithoutSessionAppend | client/src/pages/chat.tsx:175 | the filter distributes over concatenation, so the remaining sessions keep their order |
| ChatPage.WithoutAbsentSession | client/src/pages/chat.tsx:175 | deleting an id that is not listed leaves the list unchanged |
| ChatPage.Renamed | client/src/pages/chat.tsx:190-194 | same length; a session being edited gets the new title and `now`; every other session is unchanged |
| ChatPage.RenamedNothingEdited | client/src/pages/chat.tsx:190-194 | with no session being edited, no session changes |
| ChatPage.Chat.constructor | client/src/pages/chat.tsx:38-45 | the initial state: no user, no sessions, no messages, empty input, no editing |
| ChatPage.Chat.CheckAuthentication | client/src/pages/chat.tsx:49-60 | redirect exactly when either stored entry is missing or empty; otherwise adopt them, and the spinner shows only while the parsed user is null |
| ChatPage.Chat.NewChat | client/src/pages/chat.tsx:129-142 | exactly one session is prepended, titled "New Chat n+1" and owned by the user's id or ""; it becomes current and the messages are cleared; the current session is listed |
| ChatPage.Chat.SendMessage | client/src/pages/chat.tsx:145-156 | a blank input sends nothing and changes nothing; otherwise a chat without a current session first starts a new one, and the request carries the input and the session id from before that |
| ChatPage.Chat.KeyPress | client/src/pages/chat.tsx:159-164 | any other key changes nothing; Enter without Shift does exactly what `SendMessage` does: the request, the started chat and the cleared messages |
| ChatPage.Chat.ChatSucceeded | client/src/pages/chat.tsx:75-94 | appends exactly the prompt then the reply, and clears the input |
| ChatPage.Chat.SetInput | client/src/pages/chat.tsx:442 | the input takes the typed text |
| ChatPage.Chat.SessionClick | client/src/pages/chat.tsx:167-171 | the clicked session becomes current and the messages are cleared; the list does not change |
| ChatPage.Chat.DeleteSession | client/src/pages/chat.tsx:174-180 | the list loses every session with that id and keeps the rest in order; the current session and messages are reset only when that id was current; a listed current session stays listed |
| ChatPage.Chat.EditSession | client/src/pages/chat.tsx:183-186 | the editor opens on that session's id and title |
| ChatPage.Chat.SetEditingTitle | client/src/pages/chat.tsx:268 | the editor takes the typed title |
| ChatPage.Chat.SaveTitle | client/src/pages/chat.tsx:189-197 | only the sessions with the edited id change, getting the title and `now`; the editor is cleared; a listed current session stays listed |
| ChatPage.Chat.CancelEdit | client/src/pages/chat.tsx:200-203 | the editor is cleared and the sessions are untouched |
| RegisterPage.Strength | client/src/pages/register.tsx:87-95 | one point per criterion met, at most 5; 5 exactly when all five criteria hold |
| RegisterPage.GetPasswordStrength | client/src/pages/register.tsx:87-95 | the five increments compute `Strength`, a score between 0 and 5 |
| RegisterPage.StrengthZeroOnlyWhenEmpty | client/src/pages/register.tsx:88-94 | only the empty password scores 0 |
| RegisterPage.PolicyPasswordScoresFive | client/src/pages/register.tsx:87-95 | every password the registration schema accepts scores 5 |
| RegisterPage.FullStrengthOutsidePolicy | client/src/pages/register.tsx:93 | the converse fails: "Aa1~aaaa" scores 5 but the schema rejects it |
| RegisterPage.StrengthBar | client/src/pages/register.tsx:220-224 | strong at 3 or more, medium at 2, weak at 1, no bar at 0 |
| RegisterPage.FormIssues | client/src/pages/register.tsx:31-37 | the registration schema's issues come first; every later issue is on confirm_password; there is one exactly when the confirmation breaks the password rules or differs, and a mismatch is reported last |
| RegisterPage.MismatchIsReported | client/src/pages/register.tsx:34-37 | a confirmation that differs from the password always gives "Passwords do not match" on confirm_password |
| RegisterPage.FormValidExactly | client/src/pages/register.tsx:30-38 | the form passes exactly when its four server fields are a valid registration and the confirmation equals the password |
| RegisterPage.SubmitPayload | client/src/pages/register.tsx:72-84 | sends only when the form is valid and the terms are agreed; the payload is the form without confirm_password, and the server schema accepts it unchanged |

## Left out

- bcrypt internals are not modelled: cost, real salting and the 72-byte truncation. `Hashing.Hash` is a stand-in with the properties the store relies on.
- Routes.RegisterThenWrongPassword: rests on `Hashing.VerifyOnlyOriginal`, so it holds for the stand-in only, for the reason on the next line.
- Hashing.VerifyOnlyOriginal: holds for the stand-in only. Real bcrypt reads only the first 72 bytes, and the registration schema sets no maximum password length, so two passwords sharing those bytes both verify.
- `randomUUID` and `Date.now()` are not modelled. Ids, tokens, salts and clock readings are parameters. Nothing proves they are fresh or that the clock moves forward.
- One request reads one clock value, `now`. The source reads the clock several times per request: `createSession` at server/storage.ts:62 and :68, and a login at server/storage.ts:100, :93 and :62. The readings can differ by a few milliseconds, so a session's created_at and its expiry base can differ slightly.
- `setHours(+24)` is a fixed 86,400,000 ms. Local time and daylight-saving shifts are not modelled.
- Concurrency is not modelled. Each handler runs atomically, although the source awaits between its register check and the create.
- The HTTP layer is not modelled: Express, JSON encoding, the 500 path for thrown errors and `server/index.ts`. Only status codes and bodies are modelled.
- The simulated chat reply text is left out. `ChatReply` carries only the prompt.
- The /save-chat body's fixed message "Chat session saved successfully" is left out. `ChatSaved` carries only the session id.
- Schema.ParseRegister: zod's e-mail regex is not modelled; the verdict is the `isEmail` parameter. A wrong-type member gives the fixed message "Expected string", while zod also names the received type. Bodies that are not objects are not modelled.
- Schema.ParseLogin: same abstractions as `ParseRegister`.
- Lengths count Dafny characters. JavaScript counts UTF-16 code units, so characters outside the Basic Multilingual Plane are counted differently.
- The client's fetch, timeout and retry code in `client/src/lib/queryClient.ts` is not modelled.
- React rendering, toasts and routing are left out: the JSX, the dashboard and login pages, and `MessageContent.tsx`. localStorage appears only as the inputs of `CheckAuthentication`.
- `handleLogout` of the chat page is left out. It only clears localStorage and navigates to /login.
- The mutations' pending flags and the disabled states of the send and save buttons are left out.
- The chat messages' ids and timestamps are left out.
- The register form's reset after a successful registration is left out.
- `client/src/config/env.ts` and `client/src/config/index.ts` are left out. They hold constants and debug logging.
- `console.log` and `console.warn` in the API configuration are left out.
- ChatPage.Chat.CheckAuthentication: `JSON.parse` is not modelled. Its result is the `parsedUser` parameter, and a parse that throws is not modelled.

## Findings

| source | as written | input that shows it | evidently intended | confidence | as-written member | corrected member |
|---|---|---|---|---|---|---|
| client/src/config/api.ts:76-77 | `configs[apiEnv]` and `configs[environment]` also find members inherited from Object.prototype. Such a name passes the `if (!config)` fallback, and the spread copies no `endpoints`. | VITE_API_ENV="toString" (or "constructor", "valueOf", "__proto__", ...) | an environment that is not one of the three own keys falls back to development | not executed | ApiConfig.PrototypeMemberNameBreaksEndpoints (with `ApiConfig.GetEndpointUrlAsWritten`: the base URL becomes undefined and every endpoint URL is a TypeError) | ApiConfig.EndpointUrlAlwaysResolves (with `ApiConfig.GetEndpointUrl`, the own-key lookup: every endpoint resolves) |
