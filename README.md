# quiz-boilerplate: quiz traversal and authentication decisions in Dafny

This project models the two pieces of the quiz-boilerplate web application
that make decisions:

- **The quiz page** (`src/components/quizPage.tsx`, module `Quiz` in
  `quiz.dfy`). The page walks a catalog of questions. Its state is the current
  question index and a history stack of earlier indices. Answering jumps to the
  first question whose id is the chosen option's `next` and pushes the old
  index. An answer whose `next` names no question only signals that the quiz is
  complete. The back button pops the stack into the current index. The rule
  that hides the button while the stack is empty is stated on the state, not
  on what is rendered (see `BackButtonHidden` under "Left out"). The
  transitions are functions on a `Nav` value (`Answer`, `Back`, `Run` over a
  sequence of `Event`s). The lemmas are
  stated about those functions. The class `QuizPage` holds the mutable state,
  and its methods are proved to perform exactly those transitions and to keep
  every index in bounds. The record types of `src/types/types.ts` are in
  `types.dfy`. There, TypeScript's `Option` interface is called `AnswerOption`,
  so that it does not clash with `Wrappers.Option` (`wrappers.dfy`), which
  models `T | null`.
- **The authentication callbacks** (`src/auth.ts`, module `Auth` in
  `auth.dfy`). `authorized` is a first-match access policy with three outcomes:
  allow, redirect to `/dashboard`, or deny. `redirect` rewrites the post-login
  URL, and `jwt` and `session` copy the user id claim. `signIn` provisions a
  user with no password, and `authorize` checks submitted credentials. The user
  table is the class `UserStore`, a map from email to an optional password
  hash. The email syntax check (zod) and the password comparison (bcrypt) are
  function-valued parameters `isEmail` and `compare`, so nothing is assumed
  about them.

Three details of the code that the model keeps:

- The credentials schema accepts an empty password string. The zod schema is
  `z.string()`, with no minimum length; `compare` still decides.
- A stored password hash counts only when it is present and non-empty. The
  code tests `user?.password` for truthiness, so an empty hash is treated like
  a missing one (`HasPassword`).
- The path tests are plain prefix tests. So `/quizzes` is open to anonymous
  users like `/quiz/x` (`Auth.DecisionTable`).

## Model

| member | source | states |
|---|---|---|
| Quiz.Names | src/components/quizPage.tsx:40 | `q.id === nextId` holds exactly when `nextId` is that question's id; a null `nextId` matches no question |
| Quiz.Start | src/components/quizPage.tsx:36-37 | the page starts at index 0 with an empty history, where back does nothing |
| Quiz.FindIndex | src/components/quizPage.tsx:40 | the result is -1 exactly when no question carries the id; otherwise it is the first position whose id matches |
| Quiz.Completes | src/components/quizPage.tsx:40-46 | the completion alert fires exactly when no catalog entry has the id `nextId`, including when `nextId` is null |
| Quiz.Answer | src/components/quizPage.tsx:39-47 | on a match, the new index is the first matching position and the history is the old history with the old index appended; with no match the state is unchanged |
| Quiz.Back | src/components/quizPage.tsx:49-54 | an empty history leaves the state unchanged; otherwise the new index is the last history entry and exactly that entry is removed |
| Quiz.BackButtonHidden | src/components/quizPage.tsx:61 | the back button is hidden exactly when the history is empty, which is exactly when pressing it would change nothing |
| Quiz.StartInBounds | src/components/quizPage.tsx:36-37 | the initial state (index 0, empty history) is in bounds for any non-empty catalog |
| Quiz.AnswerThenBack | src/components/quizPage.tsx:39-53 | a successful answer followed by back restores both the previous index and the previous history |
| Quiz.StepInBounds | src/components/quizPage.tsx:40-52 | one answer or back press keeps the current index and every history entry within the catalog |
| Quiz.RunInBounds | src/components/quizPage.tsx:36-54 | any sequence of answers and back presses keeps the current index and every history entry within the catalog |
| Quiz.HistoryCountsSteps | src/components/quizPage.tsx:37-53 | after any sequence of actions, the history length has grown by the answers that moved forward minus the back presses that moved back |
| Quiz.CompletesOnlyOnNull | src/components/quizPage.tsx:40-46 | in a catalog where every non-null `next` names a question, an option of a question completes the quiz exactly when its `next` is null |
| Quiz.QuizPage.constructor | src/components/quizPage.tsx:36-37 | the page starts at index 0 with an empty history, which is in bounds |
| Quiz.QuizPage.AnswerSelected | src/components/quizPage.tsx:39-47 | the new state is `Answer` of the old one, the completion flag is `Completes`, and indices stay in bounds |
| Quiz.QuizPage.BackButton | src/components/quizPage.tsx:49-54 | the new state is `Back` of the old one, and indices stay in bounds |
| Auth.LoggedIn | src/auth.ts:28 | `!!auth?.user`: no session, or a session without a user, is not logged in; a session with a user is |
| Auth.Authorized | src/auth.ts:27-42 | allow exactly on a `/quiz` path or on a `/dashboard` path when logged in; redirect, always to `/dashboard`, exactly when logged in and on neither; deny exactly when not logged in and not on a quiz path |
| Auth.DecisionTable | src/auth.ts:29-41 | the policy's answers for `/quiz/x`, `/quizzes`, `/dashboard` with and without a user, `/other` when logged in, and `/` when anonymous |
| Auth.Redirect | src/auth.ts:69-78 | the result always begins with `baseUrl`; the site's own URL lands on `/quiz`, a relative path `url` lands on `url`, and anything else on `baseUrl` itself |
| Auth.LandingPageIsOpen | src/auth.ts:71-72 | the page the site's own URL lands on is one the access policy allows, logged in or not |
| Auth.Jwt | src/auth.ts:43-48 | with a user, the token's id claim becomes the user's id; without one, the token is unchanged; other claims are always kept |
| Auth.SessionOf | src/auth.ts:49-54 | with a token, the session user's id becomes the token's id claim; nothing else in the session changes |
| Auth.SignedInIdReachesSession | src/auth.ts:43-54 | the id of the user who signed in is the id that the session exposes |
| Auth.IdClaimPersists | src/auth.ts:43-48 | a later `jwt` call without a user keeps the id claim set at sign-in |
| Auth.SignInUsers | src/auth.ts:55-68 | the store gains the email, with no password when it was absent; every existing row is unchanged |
| Auth.SignInIdempotent | src/auth.ts:57-66 | signing in twice with the same email leaves the store as signing in once |
| Auth.SignInCreatesAtMostOne | src/auth.ts:57-66 | a first sign-in adds exactly one row, and a sign-in for a known email changes nothing |
| Auth.Parses | src/auth.ts:92-96 | the schema parses exactly when both fields are present strings and the email passes the email check; any password string, the empty one included, is accepted |
| Auth.HasPassword | src/auth.ts:101 | `user?.password` as a condition: a null or empty hash counts as no password, and any present non-empty hash counts as one |
| Auth.AuthorizeOutcome | src/auth.ts:87-111 | missing credentials raise an error; a user is returned exactly when the credentials parse, the stored row has a non-empty password hash and `compare` succeeds, and it is that row; every other path gives null |
| Auth.ProvisionedUserIsRejected | src/auth.ts:57-104 | a user that `signIn` has just created cannot pass `authorize`, whatever password is submitted |
| Auth.UserStore.GetUser | src/auth.ts:9-17 | the lookup returns the row for the email exactly when the store has one, and is recorded in the store's lookup log |
| Auth.UserStore.SignIn | src/auth.ts:55-68 | always returns true, looks the email up once, and the new store is `SignInUsers` of the old one |
| Auth.UserStore.Authorize | src/auth.ts:87-111 | the result is `AuthorizeOutcome` of the store; the table is unchanged; `GetUser` runs once, for the submitted email, when the credentials parse, and never otherwise |

## Left out

- Rendering: the JSX, CSS classes, the SVG, `ProgressBar` and `QuizQuestion`
  are presentation (src/components/quizPage.tsx:56-103). The only part modelled
  is the back button's visibility rule.
- BackButtonHidden: states the visibility rule of line 61 of
  src/components/quizPage.tsx as a function of the state. The source pops
  `history` in place (line 51) and never calls `setHistory`, so the page
  re-renders only when `setCurrentQuestionIndex` changes the index. If an
  option's `next` is its own question's id, answering pushes that index and
  back pops it without changing the index. The rendered button then stays
  visible over an empty history. The model does not capture this stale
  rendering.
- The completion `alert` is a UI side effect. It is the `completed` result of
  `AnswerSelected`.
- The concrete question catalog `quizData` is a parameter of the page.
  `WellFormed` states the optional condition that every non-null `next` names
  a question.
- NextAuth, PrismaAdapter and the `NextAuth(config)` export are library wiring.
- Prisma queries are modelled as map lookups and inserts. A database failure,
  rethrown by `getUser` as 'Internal server error', is an external fault and is
  not modelled.
- The generated user id of a new row is not modelled. The store maps emails to
  password hashes only.
- The bcrypt comparison and zod's email check are uninterpreted parameters.
  Password hashing is not modelled.
- `Response.redirect(new URL('/dashboard', nextUrl))` is the outcome
  `RedirectTo("/dashboard")`. URL construction is not modelled.
- The redirect callback's treatment of absolute URLs is only what its third
  case says. An absolute URL on the same site lands on `baseUrl`.
- The `console.log` of failed credentials is diagnostic output.
- Concurrency is not modelled. `getUser` looks users up with `findUnique` on
  `email` (src/auth.ts:11), so email is a unique field of the table. Of two
  simultaneous `signIn` calls for the same new email, the second
  `prisma.user.create` (src/auth.ts:60-65) breaks that uniqueness and throws out
  of `signIn`. A failing `create` is not modelled, like a failing lookup.
- `postcss.config.mjs` is build configuration, with no logic.
