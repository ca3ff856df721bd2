# Login page decisions, modelled in Dafny

This project models the decision logic of the login page of a small React
dashboard (`src/pages/Login.jsx`). The page does three things that are more
than markup:

- **Redirect on mount.** A `useEffect` runs whenever the session's
  `isAuthenticated` flag or `user` changes. If the session is authenticated
  and holds a user, it looks the user's role up in a fixed table
  (`admin`, `user`, `contractor`). A role the table does not name falls back
  to `admin`, apart from the names of the members every plain object
  inherits (see Findings). The effect then issues one *replace*-mode navigation to
  `/{segment}/dashboard`.
- **Submit handler.** `onSubmit` passes the email and password to the
  credential lookup `authenticateUser`. There are three outcomes:
  - on a match it dispatches `setUser({role, email, name})`, shows a success
    toast `Welcome, {name}!` that closes after 3000 ms, and pushes a
    navigation to `/{record.route}/dashboard`;
  - on no match it shows the error toast
    "Incorrect email or password. Please try again.";
  - if the lookup throws it shows the error toast
    "An error occurred during login. Please try again.".
- **Field rules.** The form runs `onSubmit` only when both fields are valid.
  The email is required, then must match
  `/^[A-Z0-9._%+-]+@[A-Z0-9.-]+\.[A-Z]{2,}$/i`. The password is required,
  then must be at least 6 characters long. Each rule has its own message.

Modules:

- `Routes` (`routes.dfy`): the role table, the dashboard path and its parser,
  and the JavaScript indexing expression as written (see Findings).
- `Validation` (`validation.dfy`): the email pattern, in two forms. One is a
  reference predicate (some split of the text fits the pattern). The other is
  a decision procedure that splits at the first `@` and the last dot. The two
  are proved equal. The module also holds the password rule, with length
  counted in UTF-16 code units as JavaScript's `.length` counts it, and the
  submit gate.
- `Session` (`session.dfy`): the store's `auth` slice as a class with
  `isAuthenticated`, `user` and `loading` fields, and its `setUser` action.
- `Login` (`login.dfy`): the commands the page issues to the store, the
  toaster and the router, and the page as a class with a command log. Its
  methods append to the log and update the session. Each method is tied to a
  specification function (`RedirectCommands`, `SubmitCommands`). The
  properties are lemmas about those functions.

The credential lookup `authenticateUser` lives in `src/data/dummyUsers`, and
that file is not part of this model. It becomes a function parameter that
returns `Found(record)`, `NotFound` or `Fault`. `Fault` stands for an exception.
No matching rule (case, trimming) is assumed.

The page computes the dashboard in two different ways, and the model keeps
both. The redirect effect uses the role table. The submit handler uses the
record's own `route` field. `Login.SubmitAndRedirectAgreeIff` proves that the
two agree exactly when a record's route equals its role's segment.
`Login.DivergentRecordExample` shows a record for which they differ.
This file never sets `loading`.

## Model

| member | source | states |
|---|---|---|
| Routes.RoleSegmentAsWritten | src/pages/Login.jsx:20-26 | the indexing expression with its `"admin"` fallback, as written: an own table entry, else an inherited Object member if the key names one, else `admin` when the value found is not truthy |
| Routes.RouteForRoleAsWritten | src/pages/Login.jsx:26-27 | the redirect path as written: `/` + the as-written segment (in its template text) + `/dashboard` |
| Routes.DashboardPath | src/pages/Login.jsx:27 | the path template `/{segment}/dashboard`, shared by the redirect and the submit navigation |
| Routes.RoleSegment | src/pages/Login.jsx:20-26 | own entries only: the corrected lookup; the code as written is `RoleSegmentAsWritten`. Each of `admin`, `user`, `contractor` maps to itself; every other role gives `admin`; the result is always a known role |
| Routes.RouteForRole | src/pages/Login.jsx:20-27 | own entries only: the corrected lookup; the code as written is `RoleSegmentAsWritten`. A known role goes to `/` + role + `/dashboard`; any other role, the empty one included, goes to `/admin/dashboard`; total |
| Routes.RouteForRoleRange | src/pages/Login.jsx:20-27 | every role lands on one of exactly three dashboards |
| Routes.RouteForRoleIsOwnDashboard | src/pages/Login.jsx:20-27 | a role is sent to its own dashboard if and only if the table names it |
| Routes.SegmentOfDashboardPath | src/pages/Login.jsx:27 | parsing a dashboard path returns the segment it was built from |
| Routes.DashboardPathOfSegment | src/pages/Login.jsx:27 | a path the parser accepts is the dashboard path of the segment it returns |
| Routes.DashboardPathInjective | src/pages/Login.jsx:27 | two dashboard paths are equal if and only if their segments are |
| Routes.AsWrittenAgreesOffPrototype | src/pages/Login.jsx:26 | for every key that is not an inherited Object member, the lookup as written gives the same route as the own-entry lookup |
| Routes.InheritedKeyEscapesFallback | src/pages/Login.jsx:26 | as written, role `constructor` is routed to `/function Object() { [native code] }/dashboard`, not to the admin fallback |
| Routes.EveryInheritedKeyEscapesFallback | src/pages/Login.jsx:26 | as written, every inherited key skips the fallback and differs from the corrected route |
| Validation.IsEmail | src/pages/Login.jsx:153 | the pattern test: a non-empty local part before the first `@`, and after it a non-empty domain, a last dot and two or more ASCII letters, all in the pattern's classes |
| Validation.IsEmailMatchesPattern | src/pages/Login.jsx:153 | the decision procedure (first `@`, last dot) accepts exactly the texts for which the pattern has a matching split |
| Validation.IsEmailSound | src/pages/Login.jsx:153 | a text the decision procedure accepts has a split that fits the pattern |
| Validation.IsEmailComplete | src/pages/Login.jsx:153 | a text with a split that fits the pattern is accepted by the decision procedure |
| Validation.AcceptedEmailHasOneAt | src/pages/Login.jsx:153 | an accepted address has exactly one `@` |
| Validation.Utf16Length | src/pages/Login.jsx:171-174 | the password length the length rule measures lies between the character count and twice it, and is zero only for the empty text |
| Validation.EmailError | src/pages/Login.jsx:150-155 | empty gives "Email is required" before the pattern is tried; a non-empty text the pattern rejects gives "Invalid email address"; no message exactly when the pattern matches |
| Validation.PasswordError | src/pages/Login.jsx:169-174 | empty gives "Password is required" before the length rule; shorter than 6 gives "Password must be at least 6 characters"; no message exactly when the length is at least 6 |
| Validation.PasswordLengthBounds | src/pages/Login.jsx:171-174 | six or more characters always pass the length rule; fewer than three never do |
| Validation.Validate | src/pages/Login.jsx:150-175 | each field's first failing message, computed independently for the email and the password |
| Validation.SubmissionAllowedIff | src/pages/Login.jsx:143-175 | the form library calls the submit handler if and only if the email matches the pattern and the password is at least 6 long |
| Session.AuthState.SetUser | src/pages/Login.jsx:52-58 | after `setUser`, the session is authenticated and holds exactly the given identity; `loading` is unchanged |
| Login.IdentityOf | src/pages/Login.jsx:53-57 | the object passed to `setUser`: the record's role, email and name |
| Login.WelcomeMessage | src/pages/Login.jsx:61 | the success toast text `Welcome, {name}!` |
| Login.WelcomeMessageNamesUser | src/pages/Login.jsx:61 | the success toast's text contains the user's name |
| Login.RedirectCommands | src/pages/Login.jsx:17-29 | nothing is issued unless the session is authenticated and has a user; then exactly one navigation, in replace mode, to the role route |
| Login.SubmitCommands | src/pages/Login.jsx:46-93 | every outcome shows exactly one toast; only a match updates the store and navigates, once each |
| Login.MatchedSubmitEffects | src/pages/Login.jsx:50-71 | on a match, in order: the store gets {role, email, name}; a success toast naming the user closes after 3000 ms; a push navigation goes to the dashboard of the record's route |
| Login.StoredIdentityIgnoresRouteAndPassword | src/pages/Login.jsx:52-58 | records that differ only in route or password store the same identity |
| Login.FailedSubmitEffects | src/pages/Login.jsx:72-93 | no match gives one 5000 ms error toast "Incorrect email or password. Please try again."; a throwing lookup gives one "An error occurred during login. Please try again."; nothing else is issued |
| Login.SubmitAndRedirectAgreeIff | src/pages/Login.jsx:17-71 | the submit target and the redirect target for the same record agree if and only if the record's route is its role's segment |
| Login.DivergentRecordExample | src/pages/Login.jsx:17-71 | a `user` record whose route is `admin` is pushed to `/admin/dashboard` but redirected to `/user/dashboard` |
| Login.LoginPage.RunRedirectEffect | src/pages/Login.jsx:17-29 | appends exactly the redirect commands for the current session to the log |
| Login.LoginPage.OnSubmit | src/pages/Login.jsx:42-94 | appends the submit commands of the lookup's outcome; a match makes the session authenticated with the record's identity; otherwise the session is unchanged; `loading` is never touched |
| Login.LoginPage.HandleSubmit | src/pages/Login.jsx:143-175 | returns both fields' messages; runs the submit handler only when neither field has one, and otherwise issues nothing and leaves the session unchanged |

## Findings

| source | as written | input that shows it | evidently intended | confidence | as-written member | corrected member |
|---|---|---|---|---|---|---|
| src/pages/Login.jsx:26 | `roleRouteMap[userRole]`, with its `"admin"` fallback, indexes a plain object literal, so keys of members inherited from Object.prototype find a truthy value and skip the fallback | a session user with role `constructor` (also `toString`, `__proto__`, `hasOwnProperty`, ...) is redirected to `/function Object() { [native code] }/dashboard` | every role the table does not name goes to `/admin/dashboard` | medium, not executed | Routes.InheritedKeyEscapesFallback | Routes.RouteForRole |

The corrected route uses only the table's own entries. The redirect effect in
the model uses it. `Routes.AsWrittenAgreesOffPrototype` shows that this is
the only way the two lookups differ.

## Left out

- The page's markup, its embedded styles and the `ToastContainer`: these are presentation only.
- Toast options other than severity, message and auto-close time (position, progress bar, click and drag behaviour): these are toaster behaviour.
- The internals of the form library, the store and the router: only the commands the page sends to them are modelled.
- The body of `authenticateUser`: it lives in `src/data/dummyUsers`, which is not part of this model, so it is a parameter.
- A lookup that returned a promise: the code does not await the lookup. A promise is truthy, so the code would take the match branch with `role`, `email` and `name` undefined and push `/undefined/dashboard`. The model treats the lookup's result as available at once, in one sequential step.
- The `setUser` reducer in `src/store/slices/authSlice` is not part of the model; `AuthState.SetUser` assumes it sets `user` and `isAuthenticated` and leaves `loading` alone.
- RedirectCommands and `LoginPage.RunRedirectEffect` use the corrected own-entry lookup `RoleSegment`; the lookup as written, which also finds inherited Object members, is modelled only in `Routes` (`RoleSegmentAsWritten`, `RouteForRoleAsWritten`), so the page-level redirect does not reproduce the inherited-key behaviour described under Findings.
- Exceptions thrown by `dispatch`, `toast` or `navigate` inside the `try`: they would reach the same generic toast after some effects, and these collaborators are not part of the model.
- The `loading` flag's transitions: this file only reads `loading`, to disable and relabel the button.
- The redirect effect running again after a successful login changes the session: how that interleaves with the router leaving the page is framework scheduling. `RunRedirectEffect` models one run of the effect.
- The browser's own handling of an `<input type="email">`: it cleans the value before the form library reads it (leading and trailing whitespace stripped, newlines removed), and it checks the address itself before the form's submit event. This is browser behaviour. The model's `email` is the input's cleaned value; on the page an email of only spaces gets "Email is required", while `EmailError` of the raw spaces gives "Invalid email address".
- The store's initial state comes from `authSlice`, which is not part of the model; the `AuthState` constructor assumes it is unauthenticated, with no user and `loading` false.
- The form library moving focus to the first invalid field: this is UI behaviour.
- The unused `error` state and the `Link` targets `/forgot-password` and `/signup`: they take part in no decision.
- Missing record or user fields: every field is a string. A missing role behaves like any role the table does not name. A missing route would be rendered as "undefined", and that text is not modelled.
- The text of a built-in function follows V8's layout. Other engines lay out `[native code]` with different whitespace; those layouts are not modelled.
