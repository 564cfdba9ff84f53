/**
 * The decision logic of the authentication callbacks in src/auth.ts.
 *
 * `authorized` (the access policy), `redirect` (the post-login URL), `jwt` and
 * `session` (copying the user id claim) are pure functions. The user store is
 * a class holding a map from email to an optional password hash; `signIn`
 * provisions a user there and `authorize` checks credentials against it.
 * The email syntax check and the password-hash comparison are library
 * behaviour and enter as function-valued parameters, left uninterpreted.
 */
module Auth {
  import opened Wrappers

  const QuizPrefix: string := "/quiz"
  const DashboardPrefix: string := "/dashboard"

  // ---------------------------------------------------------------------------
  // The access policy (`authorized`)

  /** The user object of the current session, as far as this model needs it. */
  datatype SessionUser = SessionUser(id: Option<string>, email: Option<string>)

  /** The `auth` argument: the current session, which may lack a user. */
  datatype AuthState = AuthState(user: Option<SessionUser>)

  /** The callback's outcomes: `true`, a redirect response, or `false`. */
  datatype Decision = Allow | RedirectTo(path: string) | Deny

  /** `!!auth?.user`: a session counts only when it carries a user. */
  function LoggedIn(auth: Option<AuthState>): (r: bool)
    ensures auth.None? ==> !r
    ensures auth == Some(AuthState(None)) ==> !r
    ensures forall u :: auth == Some(AuthState(Some(u))) ==> r
  {
    auth.Some? && auth.value.user.Some?
  }

  /** `authorized`: the first-match access policy for a request path. */
  function Authorized(pathname: string, auth: Option<AuthState>): (d: Decision)
    ensures d == Allow <==>
      QuizPrefix <= pathname || (DashboardPrefix <= pathname && LoggedIn(auth))
    ensures d.RedirectTo? <==>
      LoggedIn(auth) && !(QuizPrefix <= pathname) && !(DashboardPrefix <= pathname)
    ensures d.RedirectTo? ==> d.path == DashboardPrefix
    ensures d == Deny <==> !LoggedIn(auth) && !(QuizPrefix <= pathname)
  {
    var isLoggedIn := LoggedIn(auth);
    var isOnQuizPage := QuizPrefix <= pathname;
    var isOnDashboard := DashboardPrefix <= pathname;
    if isOnQuizPage then Allow
    else if isOnDashboard && isLoggedIn then Allow
    else if isLoggedIn then RedirectTo(DashboardPrefix)
    else Deny
  }

  /** The policy on literal requests, including a path that only shares the quiz prefix. */
  lemma DecisionTable(someone: SessionUser)
    ensures Authorized("/quiz/x", None) == Allow
    ensures Authorized("/quizzes", None) == Allow
    ensures Authorized("/dashboard", None) == Deny
    ensures Authorized("/dashboard", Some(AuthState(None))) == Deny
    ensures Authorized("/dashboard", Some(AuthState(Some(someone)))) == Allow
    ensures Authorized("/other", Some(AuthState(Some(someone)))) == RedirectTo("/dashboard")
    ensures Authorized("/", None) == Deny
  {
    assert QuizPrefix <= "/quiz/x";
    assert QuizPrefix <= "/quizzes";
    assert DashboardPrefix <= "/dashboard";
    assert "/dashboard"[1] != QuizPrefix[1];
    assert "/other"[1] != QuizPrefix[1] && "/other"[1] != DashboardPrefix[1];
  }

  // ---------------------------------------------------------------------------
  // The post-login URL (`redirect`)

  /** `redirect`: the URL the user lands on after signing in. */
  function Redirect(url: string, baseUrl: string): (r: string)
    ensures baseUrl <= r
    ensures url == baseUrl ==> r[|baseUrl|..] == QuizPrefix
    ensures url != baseUrl && "/" <= url ==> r[|baseUrl|..] == url
    ensures url != baseUrl && !("/" <= url) ==> r == baseUrl
  {
    if url == baseUrl then baseUrl + QuizPrefix
    else if "/" <= url then baseUrl + url
    else baseUrl
  }

  /** Landing on the site's own URL takes the user to a page the policy opens to everyone. */
  lemma LandingPageIsOpen(baseUrl: string, auth: Option<AuthState>)
    ensures Authorized(Redirect(baseUrl, baseUrl)[|baseUrl|..], auth) == Allow
  {
  }

  // ---------------------------------------------------------------------------
  // The id claim (`jwt` and `session`)

  /** The user handed to `jwt` right after sign-in. */
  datatype User = User(id: string, email: Option<string>)

  /** A JWT: the custom `id` claim and every other claim, untouched by this code. */
  datatype Token = Token(id: Option<string>, claims: map<string, string>)

  datatype Session = Session(user: SessionUser, expires: string)

  /** `jwt`: copy the signed-in user's id into the token. */
  function Jwt(token: Token, user: Option<User>): (t: Token)
    ensures t.claims == token.claims
    ensures user.Some? ==> t.id == Some(user.value.id)
    ensures user.None? ==> t == token
  {
    if user.Some? then token.(id := Some(user.value.id)) else token
  }

  /** `session`: expose the token's id claim on the session's user. */
  function SessionOf(session: Session, token: Option<Token>): (s: Session)
    ensures s.expires == session.expires && s.user.email == session.user.email
    ensures token.Some? ==> s.user.id == token.value.id
    ensures token.None? ==> s == session
  {
    if token.Some? then session.(user := session.user.(id := token.value.id)) else session
  }

  /** The id of the user who signed in reaches the session, whatever the token held before. */
  lemma SignedInIdReachesSession(session: Session, token: Token, user: User)
    ensures SessionOf(session, Some(Jwt(token, Some(user)))).user.id == Some(user.id)
  {
  }

  /** Later `jwt` calls, which carry no user, keep the id claim. */
  lemma IdClaimPersists(token: Token, user: User)
    ensures Jwt(Jwt(token, Some(user)), None).id == Some(user.id)
  {
  }

  // ---------------------------------------------------------------------------
  // The user store (`signIn` and `authorize`)

  /** The user table: each email maps to its password hash, None when no password is set. */
  type Users = map<string, Option<string>>

  /** A row of the user table. */
  datatype UserRecord = UserRecord(email: string, password: Option<string>)

  /** The fields submitted to `authorize`; None when a field is absent or not a string. */
  datatype Credentials = Credentials(email: Option<string>, password: Option<string>)

  /** `null` is returned as Rejected; the thrown 'Missing credentials' error as MissingCredentials. */
  datatype AuthorizeResult = Granted(user: UserRecord) | Rejected | MissingCredentials

  /**
   * The zod schema: both fields are strings and the email is well-formed.
   * `z.string()` sets no minimum length, so an empty password parses.
   */
  function Parses(c: Credentials, isEmail: string -> bool): (r: bool)
    ensures r ==> c.email.Some? && c.password.Some?
    ensures c.email.Some? && !isEmail(c.email.value) ==> !r
    ensures c.email.Some? && c.password.Some? && isEmail(c.email.value) ==> r
  {
    c.email.Some? && c.password.Some? && isEmail(c.email.value)
  }

  /** `user?.password` tested as a condition: present and not the empty string. */
  function HasPassword(password: Option<string>): (r: bool)
    ensures password == None ==> !r
    ensures password == Some("") ==> !r
    ensures r ==> |password.value| > 0
    ensures password.Some? && password.value != "" ==> r
  {
    password.Some? && password.value != ""
  }

  /** The store after `signIn` for `email`: the email is added with no password when absent. */
  function SignInUsers(users: Users, email: string): (r: Users)
    ensures r.Keys == users.Keys + {email}
    ensures forall e :: e in users ==> r[e] == users[e]
    ensures email !in users ==> r[email] == None
  {
    if email in users then users else users[email := None]
  }

  /** Signing in twice with the same email is the same as signing in once. */
  lemma SignInIdempotent(users: Users, email: string)
    ensures SignInUsers(SignInUsers(users, email), email) == SignInUsers(users, email)
  {
  }

  /** A first sign-in creates exactly one user, and any later one none. */
  lemma SignInCreatesAtMostOne(users: Users, email: string)
    ensures email !in users ==> |SignInUsers(users, email)| == |users| + 1
    ensures email in users ==> SignInUsers(users, email) == users
  {
  }

  /** What `authorize` answers for a store and a submission. */
  function AuthorizeOutcome(
    users: Users, credentials: Option<Credentials>,
    isEmail: string -> bool, compare: (string, string) -> bool): (r: AuthorizeResult)
    ensures r == MissingCredentials <==> credentials.None?
    ensures r.Granted? <==>
      credentials.Some? && Parses(credentials.value, isEmail) &&
      var email := credentials.value.email.value;
      email in users && HasPassword(users[email]) &&
      compare(credentials.value.password.value, users[email].value)
    ensures r.Granted? ==>
      r.user.email == credentials.value.email.value &&
      r.user.email in users && r.user.password == users[r.user.email]
  {
    match credentials
    case None => MissingCredentials
    case Some(c) =>
      if !Parses(c, isEmail) then Rejected
      else
        var email := c.email.value;
        if email in users && HasPassword(users[email]) && compare(c.password.value, users[email].value)
        then Granted(UserRecord(email, users[email]))
        else Rejected
  }

  /** A user that `signIn` has just provisioned cannot pass `authorize`: it has no password yet. */
  lemma ProvisionedUserIsRejected(
    users: Users, email: string, password: Option<string>,
    isEmail: string -> bool, compare: (string, string) -> bool)
    requires email !in users
    ensures AuthorizeOutcome(SignInUsers(users, email), Some(Credentials(Some(email), password)), isEmail, compare)
         == Rejected
  {
  }

  /** The user table behind the callbacks. */
  class UserStore {
    var users: Users
    /** The emails looked up in the table so far, in order. */
    ghost var lookups: seq<string>

    constructor (users: Users)
      ensures this.users == users && lookups == []
    {
      this.users := users;
      lookups := [];
    }

    /** `getUser`: the row for `email`, or None; the lookup is logged. */
    method GetUser(email: string) returns (u: Option<UserRecord>)
      modifies this`lookups
      ensures lookups == old(lookups) + [email]
      ensures u.Some? <==> email in users
      ensures u.Some? ==> u.value.email == email && u.value.password == users[email]
    {
      lookups := lookups + [email];
      u := if email in users then Some(UserRecord(email, users[email])) else None;
    }

    /** `signIn`: always admits the user, creating the row first if there is none. */
    method SignIn(email: string) returns (ok: bool)
      modifies this
      ensures ok
      ensures users == SignInUsers(old(users), email)
      ensures lookups == old(lookups) + [email]
    {
      var existingUser := GetUser(email);
      if existingUser.None? {
        users := users[email := None];
      }
      ok := true;
    }

    /** `authorize`: credentials that fail to parse cause no lookup; the store itself is unchanged. */
    method Authorize(credentials: Option<Credentials>, isEmail: string -> bool, compare: (string, string) -> bool)
      returns (r: AuthorizeResult)
      modifies this`lookups
      ensures r == AuthorizeOutcome(users, credentials, isEmail, compare)
      ensures lookups == old(lookups) +
        if credentials.Some? && Parses(credentials.value, isEmail) then [credentials.value.email.value] else []
    {
      if credentials.None? {
        r := MissingCredentials;
        return;
      }
      var c := credentials.value;
      r := Rejected;
      if Parses(c, isEmail) {
        var email, password := c.email.value, c.password.value;
        var user := GetUser(email);
        if user.Some? && HasPassword(user.value.password) {
          var passwordsMatch := compare(password, user.value.password.value);
          if passwordsMatch {
            r := Granted(user.value);
          }
        }
      }
    }
  }
}
