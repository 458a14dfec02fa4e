/** The shared schema: the table shapes as records, and the zod request schemas
    as lists of checks whose failures become the issue list `safeParse` reports. */
module Schema {
  import opened Wrappers
  import opened Text

  /** Milliseconds since the epoch, the value a JavaScript `Date` stands for. */
  type Timestamp = int

  // ---------------------------------------------------------------- tables

  /** A row of `users`. `user_type` is absent on every user the register
      endpoint creates, since the registration schema does not carry it. */
  datatype User = User(
    id: string,
    username: string,
    first_name: string,
    last_name: string,
    password: string,
    user_type: Option<string>,
    created_at: Timestamp)

  /** A row of `sessions`. */
  datatype Session = Session(id: string, username: string, created_at: Timestamp, expires_at: Timestamp)

  /** A row of `login_attempts` (the in-memory store keeps bare timestamps instead). */
  datatype LoginAttempt = LoginAttempt(id: string, username: string, attempted_at: Timestamp)

  /** A row of `chat_sessions`. */
  datatype ChatSession = ChatSession(id: string, user_id: string, title: string, created_at: Timestamp, updated_at: Timestamp)

  /** A row of `chat_messages`; `role` is "user" or "assistant". */
  datatype ChatMessage = ChatMessage(id: string, session_id: string, role: string, content: string, created_at: Timestamp)

  // ---------------------------------------------------------------- zod

  /** A member of a JSON request body, as far as a zod string schema tells values apart. */
  datatype Json = Missing | Str(s: string) | NotString

  /** One entry of a zod error: the field path and the message. */
  datatype Issue = Issue(path: string, message: string)

  datatype CharClass = Upper | Lower | Digit | Special

  /** One refinement of a `z.string()`: `.min`, `.max`, `.email` or `.regex`. */
  datatype Check =
    | MinLength(n: nat, message: string)
    | MaxLength(n: nat, message: string)
    | Email(message: string)
    | Contains(cls: CharClass, message: string)

  /** The characters of `/[!@#$%^&*(),.?":{}|<>]/`. */
  const Specials: set<char> :=
    {'!', '@', '#', '$', '%', '^', '&', '*', '(', ')', ',', '.', '?', '"', ':', '{', '}', '|', '<', '>'}

  predicate HasSpecial(s: string) { exists i :: 0 <= i < |s| && s[i] in Specials }

  predicate InClass(c: char, cls: CharClass) {
    match cls
    case Upper => IsUpper(c)
    case Lower => IsLower(c)
    case Digit => IsDigit(c)
    case Special => c in Specials
  }

  /** Whether a check passes. zod's e-mail pattern is not modelled: its verdict is `isEmail`. */
  predicate Holds(check: Check, s: string, isEmail: string -> bool) {
    match check
    case MinLength(n, _) => |s| >= n
    case MaxLength(n, _) => |s| <= n
    case Email(_) => isEmail(s)
    case Contains(cls, _) => exists i :: 0 <= i < |s| && InClass(s[i], cls)
  }

  /** zod runs every check of a string and reports each failed one, in order. */
  function CheckIssues(path: string, checks: seq<Check>, s: string, isEmail: string -> bool): (r: seq<Issue>)
    ensures r == [] <==> forall i :: 0 <= i < |checks| ==> Holds(checks[i], s, isEmail)
    ensures |r| <= |checks|
    ensures forall k :: 0 <= k < |r| ==> r[k].path == path
    ensures |checks| == 1 ==> r == if Holds(checks[0], s, isEmail) then [] else [Issue(path, checks[0].message)]
  {
    if checks == [] then []
    else
      (if Holds(checks[0], s, isEmail) then [] else [Issue(path, checks[0].message)])
      + CheckIssues(path, checks[1..], s, isEmail)
  }

  /** The checks are run in order: the issues of a list of checks are those of
      its first part followed by those of the rest. With the one-check case of
      `CheckIssues`, each failed check gives exactly one issue with its own
      message, in check order. */
  lemma {:induction false} CheckIssuesAppend(path: string, a: seq<Check>, b: seq<Check>, s: string, isEmail: string -> bool)
    ensures CheckIssues(path, a + b, s, isEmail) == CheckIssues(path, a, s, isEmail) + CheckIssues(path, b, s, isEmail)
  {
    if a == [] {
      assert a + b == b;
    } else {
      assert (a + b)[0] == a[0];
      assert (a + b)[1..] == a[1..] + b;
      CheckIssuesAppend(path, a[1..], b, s, isEmail);
    }
  }

  const Required := "Required"
  const ExpectedString := "Expected string"

  /** A required `z.string()` member: a missing or non-string member is one issue,
      a string is checked against `checks`. */
  function StringIssues(path: string, v: Json, checks: seq<Check>, isEmail: string -> bool): seq<Issue> {
    match v
    case Missing => [Issue(path, Required)]
    case NotString => [Issue(path, ExpectedString)]
    case Str(s) => CheckIssues(path, checks, s, isEmail)
  }

  /** A `z.string().optional()` member: absent or a string. */
  function OptionalStringIssues(path: string, v: Json): seq<Issue> {
    if v.NotString? then [Issue(path, ExpectedString)] else []
  }

  /** The schemas used below have no e-mail check except where `isEmail` is passed on. */
  function NoEmailCheck(s: string): bool { false }

  // ---------------------------------------------------------------- registerUserSchema

  const UsernameChecks := [Email("Please enter a valid email address")]
  const FirstNameChecks := [MinLength(1, "First name is required"), MaxLength(50, "First name must be 50 characters or less")]
  const LastNameChecks := [MinLength(1, "Last name is required"), MaxLength(50, "Last name must be 50 characters or less")]
  const PasswordChecks := [
    MinLength(8, "Password must be at least 8 characters long"),
    Contains(Upper, "Password must contain at least one uppercase letter"),
    Contains(Lower, "Password must contain at least one lowercase letter"),
    Contains(Digit, "Password must contain at least one digit"),
    Contains(Special, "Password must contain at least one special character")]

  predicate NameLengthOk(s: string) { 1 <= |s| <= 50 }

  /** The registration password policy. */
  predicate PasswordPolicy(p: string) {
    |p| >= 8 && HasUpper(p) && HasLower(p) && HasDigit(p) && HasSpecial(p)
  }

  lemma NameChecksMeaning(s: string, isEmail: string -> bool)
    ensures (forall i :: 0 <= i < |FirstNameChecks| ==> Holds(FirstNameChecks[i], s, isEmail)) <==> NameLengthOk(s)
    ensures (forall i :: 0 <= i < |LastNameChecks| ==> Holds(LastNameChecks[i], s, isEmail)) <==> NameLengthOk(s)
  {
    assert Holds(FirstNameChecks[0], s, isEmail) && Holds(FirstNameChecks[1], s, isEmail) <==> NameLengthOk(s);
    assert Holds(LastNameChecks[0], s, isEmail) && Holds(LastNameChecks[1], s, isEmail) <==> NameLengthOk(s);
  }

  lemma PasswordChecksMeaning(p: string, isEmail: string -> bool)
    ensures (forall i :: 0 <= i < |PasswordChecks| ==> Holds(PasswordChecks[i], p, isEmail)) <==> PasswordPolicy(p)
  {
    assert Holds(PasswordChecks[0], p, isEmail) <==> |p| >= 8;
    assert Holds(PasswordChecks[1], p, isEmail) <==> HasUpper(p);
    assert Holds(PasswordChecks[2], p, isEmail) <==> HasLower(p);
    assert Holds(PasswordChecks[3], p, isEmail) <==> HasDigit(p);
    assert Holds(PasswordChecks[4], p, isEmail) <==> HasSpecial(p);
  }

  datatype RegisterBody = RegisterBody(username: Json, first_name: Json, last_name: Json, password: Json)

  /** The data `registerUserSchema` lets through (unknown keys such as `user_type` are stripped). */
  datatype RegisterUser = RegisterUser(username: string, first_name: string, last_name: string, password: string)

  predicate ValidRegistration(b: RegisterBody, isEmail: string -> bool) {
    && b.username.Str? && isEmail(b.username.s)
    && b.first_name.Str? && NameLengthOk(b.first_name.s)
    && b.last_name.Str? && NameLengthOk(b.last_name.s)
    && b.password.Str? && PasswordPolicy(b.password.s)
  }

  function RegisterIssues(b: RegisterBody, isEmail: string -> bool): seq<Issue> {
    StringIssues("username", b.username, UsernameChecks, isEmail)
    + StringIssues("first_name", b.first_name, FirstNameChecks, isEmail)
    + StringIssues("last_name", b.last_name, LastNameChecks, isEmail)
    + StringIssues("password", b.password, PasswordChecks, isEmail)
  }

  /** `registerUserSchema.safeParse`: the body passes exactly when every member is
      a string meeting its rules, and then the data is those strings. */
  function ParseRegister(b: RegisterBody, isEmail: string -> bool): (r: Result<RegisterUser, seq<Issue>>)
    ensures r.Ok? <==> ValidRegistration(b, isEmail)
    ensures r.Ok? ==> b == RegisterBody(Str(r.value.username), Str(r.value.first_name), Str(r.value.last_name), Str(r.value.password))
    ensures r.Ok? ==> RegisterIssues(b, isEmail) == []
    ensures r.Err? ==> r.error == RegisterIssues(b, isEmail) && r.error != []
  {
    var issues := RegisterIssues(b, isEmail);
    if b.username.Str? && b.first_name.Str? && b.last_name.Str? && b.password.Str? then
      NameChecksMeaning(b.first_name.s, isEmail);
      NameChecksMeaning(b.last_name.s, isEmail);
      PasswordChecksMeaning(b.password.s, isEmail);
      assert (forall i :: 0 <= i < |UsernameChecks| ==> Holds(UsernameChecks[i], b.username.s, isEmail)) <==> isEmail(b.username.s) by {
        assert Holds(UsernameChecks[0], b.username.s, isEmail) <==> isEmail(b.username.s);
      }
      if issues == [] then Ok(RegisterUser(b.username.s, b.first_name.s, b.last_name.s, b.password.s))
      else Err(issues)
    else
      Err(issues)
  }

  // ---------------------------------------------------------------- loginUserSchema

  const LoginPasswordChecks := [MinLength(8, "Password must be at least 8 characters")]

  datatype LoginBody = LoginBody(username: Json, password: Json)
  datatype LoginUser = LoginUser(username: string, password: string)

  predicate ValidLogin(b: LoginBody, isEmail: string -> bool) {
    b.username.Str? && isEmail(b.username.s) && b.password.Str? && |b.password.s| >= 8
  }

  function LoginIssues(b: LoginBody, isEmail: string -> bool): seq<Issue> {
    StringIssues("username", b.username, UsernameChecks, isEmail)
    + StringIssues("password", b.password, LoginPasswordChecks, isEmail)
  }

  /** `loginUserSchema.safeParse`: a login password needs only eight characters. */
  function ParseLogin(b: LoginBody, isEmail: string -> bool): (r: Result<LoginUser, seq<Issue>>)
    ensures r.Ok? <==> ValidLogin(b, isEmail)
    ensures r.Ok? ==> b == LoginBody(Str(r.value.username), Str(r.value.password))
    ensures r.Err? ==> r.error == LoginIssues(b, isEmail) && r.error != []
  {
    var issues := LoginIssues(b, isEmail);
    if b.username.Str? && b.password.Str? then
      assert Holds(UsernameChecks[0], b.username.s, isEmail) <==> isEmail(b.username.s);
      assert Holds(LoginPasswordChecks[0], b.password.s, isEmail) <==> |b.password.s| >= 8;
      if issues == [] then Ok(LoginUser(b.username.s, b.password.s)) else Err(issues)
    else
      Err(issues)
  }

  /** Every registration that the register schema accepts is a login body the
      login schema accepts: the login password rule is weaker. */
  lemma RegistrationPassesLogin(b: RegisterBody, isEmail: string -> bool)
    requires ParseRegister(b, isEmail).Ok?
    ensures ParseLogin(LoginBody(b.username, b.password), isEmail)
         == Ok(LoginUser(b.username.s, b.password.s))
  {
  }

  // ---------------------------------------------------------------- chat schemas

  const PromptChecks := [MinLength(1, "Message cannot be empty"), MaxLength(4000, "Message too long")]
  const TitleChecks := [MinLength(1, "Title is required"), MaxLength(100, "Title too long")]

  datatype ChatRequestBody = ChatRequestBody(prompt: Json, session_id: Json)
  datatype ChatRequest = ChatRequest(prompt: string, session_id: Option<string>)

  predicate ValidChatRequest(b: ChatRequestBody) {
    b.prompt.Str? && 1 <= |b.prompt.s| <= 4000 && !b.session_id.NotString?
  }

  function ChatRequestIssues(b: ChatRequestBody): seq<Issue> {
    StringIssues("prompt", b.prompt, PromptChecks, NoEmailCheck)
    + OptionalStringIssues("session_id", b.session_id)
  }

  /** `chatRequestSchema.safeParse`: a prompt of 1 to 4000 characters, and a
      session id that is either absent or a string. */
  function ParseChatRequest(b: ChatRequestBody): (r: Result<ChatRequest, seq<Issue>>)
    ensures r.Ok? <==> ValidChatRequest(b)
    ensures r.Ok? ==> Str(r.value.prompt) == b.prompt
    ensures r.Ok? ==> r.value.session_id == if b.session_id.Str? then Some(b.session_id.s) else None
    ensures r.Err? ==> r.error == ChatRequestIssues(b) && r.error != []
  {
    var issues := ChatRequestIssues(b);
    if b.prompt.Str? then
      assert Holds(PromptChecks[0], b.prompt.s, NoEmailCheck) <==> |b.prompt.s| >= 1;
      assert Holds(PromptChecks[1], b.prompt.s, NoEmailCheck) <==> |b.prompt.s| <= 4000;
      if issues == [] then
        Ok(ChatRequest(b.prompt.s, if b.session_id.Str? then Some(b.session_id.s) else None))
      else Err(issues)
    else
      Err(issues)
  }

  datatype CreateChatSessionBody = CreateChatSessionBody(title: Json)

  /** `createChatSessionSchema.safeParse`: a title of 1 to 100 characters. */
  function ParseCreateChatSession(b: CreateChatSessionBody): (r: Result<string, seq<Issue>>)
    ensures r.Ok? <==> b.title.Str? && 1 <= |b.title.s| <= 100
    ensures r.Ok? ==> b.title == Str(r.value)
    ensures r.Err? ==> r.error != []
  {
    var issues := StringIssues("title", b.title, TitleChecks, NoEmailCheck);
    if b.title.Str? then
      assert Holds(TitleChecks[0], b.title.s, NoEmailCheck) <==> |b.title.s| >= 1;
      assert Holds(TitleChecks[1], b.title.s, NoEmailCheck) <==> |b.title.s| <= 100;
      if issues == [] then Ok(b.title.s) else Err(issues)
    else
      Err(issues)
  }
}
